/** What `parsePrompt` reads back from a generated prompt through its
    lowercase substring cues. A cue is shown absent by exhibiting one of its
    letter trigrams that the text lacks; it is shown present by locating it
    inside one directive. */
module PromptCues {
  import opened Text
  import opened PromptUtils

  /** One letter trigram of each cue phrase, numbered 0 to 7: "bri" of
      "brief", "dir" of "only reveal information when directly asked", "ead"
      of "detailed information readily", "ope" of "open and communicative",
      "cha" of both character cues, "jar" of "jargon", "fee" of "feedback"
      and "tin" of "rating". */
  const CueGrams: seq<string> := ["bri", "dir", "ead", "ope", "cha", "jar", "fee", "tin"]

  // ---------------------------------------------------------------------
  // certificates for literal text

  /** The three characters at `i` spell the lowercase `a b c`, ignoring ASCII case. */
  predicate Tri(s: string, i: int, a: char, b: char, c: char)
    requires 0 <= i < |s| - 2
  {
    (s[i] == a || s[i] as int == a as int - 32)
    && (s[i + 1] == b || s[i + 1] as int == b as int - 32)
    && (s[i + 2] == c || s[i + 2] as int == c as int - 32)
  }

  /** `s` spells none of the cue trigrams, except possibly numbers `x` and
      `y`; the letters are written out so that a literal is checked cheaply. */
  predicate CueFree(s: string, x: nat, y: nat) {
    forall i | 0 <= i < |s| - 2 ::
      (x == 0 || y == 0 || !Tri(s, i, 'b', 'r', 'i')) && (x == 1 || y == 1 || !Tri(s, i, 'd', 'i', 'r'))
      && (x == 2 || y == 2 || !Tri(s, i, 'e', 'a', 'd')) && (x == 3 || y == 3 || !Tri(s, i, 'o', 'p', 'e'))
      && (x == 4 || y == 4 || !Tri(s, i, 'c', 'h', 'a')) && (x == 5 || y == 5 || !Tri(s, i, 'j', 'a', 'r'))
      && (x == 6 || y == 6 || !Tri(s, i, 'f', 'e', 'e')) && (x == 7 || y == 7 || !Tri(s, i, 't', 'i', 'n'))
  }

  predicate WordsCueFree(ws: seq<string>, x: nat, y: nat) {
    forall i | 0 <= i < |ws| :: CueFree(ws[i], x, y)
  }

  // Certificates, one directive text at a time: every word of each fixed
  // paragraph and directive spells no cue trigram other than the ones that
  // text is meant to carry. Each is split into small ranges of words only so
  // that no single proof grows large; none states anything beyond that.

  lemma ForthcomingCueFree1() ensures forall i | 0 <= i < 2 :: CueFree(ForthcomingWords[i], 2, 3) {}
  lemma ForthcomingCueFree2() ensures forall i | 2 <= i < 5 :: CueFree(ForthcomingWords[i], 2, 3) {}
  lemma ForthcomingCueFree3() ensures forall i | 5 <= i < 9 :: CueFree(ForthcomingWords[i], 2, 3) {}
  lemma ForthcomingCueFree4() ensures forall i | 9 <= i < 11 :: CueFree(ForthcomingWords[i], 2, 3) {}
  lemma ForthcomingCueFree5() ensures forall i | 11 <= i < 14 :: CueFree(ForthcomingWords[i], 2, 3) {}
  lemma ForthcomingCueFree() ensures WordsCueFree(ForthcomingWords, 2, 3) { ForthcomingCueFree1(); ForthcomingCueFree2(); ForthcomingCueFree3(); ForthcomingCueFree4(); ForthcomingCueFree5(); }

  lemma ReservedCueFree1() ensures forall i | 0 <= i < 3 :: CueFree(ReservedWords[i], 0, 1) {}
  lemma ReservedCueFree2() ensures forall i | 3 <= i < 6 :: CueFree(ReservedWords[i], 0, 1) {}
  lemma ReservedCueFree3() ensures forall i | 6 <= i < 8 :: CueFree(ReservedWords[i], 0, 1) {}
  lemma ReservedCueFree4() ensures forall i | 8 <= i < 11 :: CueFree(ReservedWords[i], 0, 1) {}
  lemma ReservedCueFree5() ensures forall i | 11 <= i < 13 :: CueFree(ReservedWords[i], 0, 1) {}
  lemma ReservedCueFree6() ensures forall i | 13 <= i < 15 :: CueFree(ReservedWords[i], 0, 1) {}
  lemma ReservedCueFree7() ensures forall i | 15 <= i < 19 :: CueFree(ReservedWords[i], 0, 1) {}
  lemma ReservedCueFree8() ensures forall i | 19 <= i < 20 :: CueFree(ReservedWords[i], 0, 1) {}
  lemma ReservedCueFree() ensures WordsCueFree(ReservedWords, 0, 1) { ReservedCueFree1(); ReservedCueFree2(); ReservedCueFree3(); ReservedCueFree4(); ReservedCueFree5(); ReservedCueFree6(); ReservedCueFree7(); ReservedCueFree8(); }

  lemma ModerateCueFree1() ensures forall i | 0 <= i < 3 :: CueFree(ModerateWords[i], 8, 8) {}
  lemma ModerateCueFree2() ensures forall i | 3 <= i < 6 :: CueFree(ModerateWords[i], 8, 8) {}
  lemma ModerateCueFree3() ensures forall i | 6 <= i < 9 :: CueFree(ModerateWords[i], 8, 8) {}
  lemma ModerateCueFree4() ensures forall i | 9 <= i < 11 :: CueFree(ModerateWords[i], 8, 8) {}
  lemma ModerateCueFree5() ensures forall i | 11 <= i < 14 :: CueFree(ModerateWords[i], 8, 8) {}
  lemma ModerateCueFree6() ensures forall i | 14 <= i < 17 :: CueFree(ModerateWords[i], 8, 8) {}
  lemma ModerateCueFree() ensures WordsCueFree(ModerateWords, 8, 8) { ModerateCueFree1(); ModerateCueFree2(); ModerateCueFree3(); ModerateCueFree4(); ModerateCueFree5(); ModerateCueFree6(); }

  lemma StayInCharacterCueFree1() ensures forall i | 0 <= i < 5 :: CueFree(StayInCharacterWords[i], 4, 4) {}
  lemma StayInCharacterCueFree2() ensures forall i | 5 <= i < 8 :: CueFree(StayInCharacterWords[i], 4, 4) {}
  lemma StayInCharacterCueFree3() ensures forall i | 8 <= i < 9 :: CueFree(StayInCharacterWords[i], 4, 4) {}
  lemma StayInCharacterCueFree() ensures WordsCueFree(StayInCharacterWords, 4, 4) { StayInCharacterCueFree1(); StayInCharacterCueFree2(); StayInCharacterCueFree3(); }

  lemma RespondAsPatientCueFree1() ensures forall i | 0 <= i < 5 :: CueFree(RespondAsPatientWords[i], 8, 8) {}
  lemma RespondAsPatientCueFree2() ensures forall i | 5 <= i < 10 :: CueFree(RespondAsPatientWords[i], 8, 8) {}
  lemma RespondAsPatientCueFree3() ensures forall i | 10 <= i < 11 :: CueFree(RespondAsPatientWords[i], 8, 8) {}
  lemma RespondAsPatientCueFree() ensures WordsCueFree(RespondAsPatientWords, 8, 8) { RespondAsPatientCueFree1(); RespondAsPatientCueFree2(); RespondAsPatientCueFree3(); }

  lemma AvoidJargonCueFree1() ensures forall i | 0 <= i < 4 :: CueFree(AvoidJargonWords[i], 5, 5) {}
  lemma AvoidJargonCueFree2() ensures forall i | 4 <= i < 8 :: CueFree(AvoidJargonWords[i], 5, 5) {}
  lemma AvoidJargonCueFree3() ensures forall i | 8 <= i < 15 :: CueFree(AvoidJargonWords[i], 5, 5) {}
  lemma AvoidJargonCueFree4() ensures forall i | 15 <= i < 16 :: CueFree(AvoidJargonWords[i], 5, 5) {}
  lemma AvoidJargonCueFree() ensures WordsCueFree(AvoidJargonWords, 5, 5) { AvoidJargonCueFree1(); AvoidJargonCueFree2(); AvoidJargonCueFree3(); AvoidJargonCueFree4(); }

  lemma ExpressConfusionCueFree1() ensures forall i | 0 <= i < 4 :: CueFree(ExpressConfusionWords[i], 8, 8) {}
  lemma ExpressConfusionCueFree2() ensures forall i | 4 <= i < 7 :: CueFree(ExpressConfusionWords[i], 8, 8) {}
  lemma ExpressConfusionCueFree3() ensures forall i | 7 <= i < 11 :: CueFree(ExpressConfusionWords[i], 8, 8) {}
  lemma ExpressConfusionCueFree() ensures WordsCueFree(ExpressConfusionWords, 8, 8) { ExpressConfusionCueFree1(); ExpressConfusionCueFree2(); ExpressConfusionCueFree3(); }

  lemma AskToExplainCueFree1() ensures forall i | 0 <= i < 6 :: CueFree(AskToExplainWords[i], 8, 8) {}
  lemma AskToExplainCueFree2() ensures forall i | 6 <= i < 10 :: CueFree(AskToExplainWords[i], 8, 8) {}
  lemma AskToExplainCueFree3() ensures forall i | 10 <= i < 12 :: CueFree(AskToExplainWords[i], 8, 8) {}
  lemma AskToExplainCueFree() ensures WordsCueFree(AskToExplainWords, 8, 8) { AskToExplainCueFree1(); AskToExplainCueFree2(); AskToExplainCueFree3(); }

  lemma ConsistentCueFree1() ensures forall i | 0 <= i < 4 :: CueFree(ConsistentWords[i], 8, 8) {}
  lemma ConsistentCueFree2() ensures forall i | 4 <= i < 7 :: CueFree(ConsistentWords[i], 8, 8) {}
  lemma ConsistentCueFree3() ensures forall i | 7 <= i < 8 :: CueFree(ConsistentWords[i], 8, 8) {}
  lemma ConsistentCueFree() ensures WordsCueFree(ConsistentWords, 8, 8) { ConsistentCueFree1(); ConsistentCueFree2(); ConsistentCueFree3(); }

  lemma UnknownSymptomsCueFree1() ensures forall i | 0 <= i < 5 :: CueFree(UnknownSymptomsWords[i], 8, 8) {}
  lemma UnknownSymptomsCueFree2() ensures forall i | 5 <= i < 9 :: CueFree(UnknownSymptomsWords[i], 8, 8) {}
  lemma UnknownSymptomsCueFree3() ensures forall i | 9 <= i < 13 :: CueFree(UnknownSymptomsWords[i], 8, 8) {}
  lemma UnknownSymptomsCueFree4() ensures forall i | 13 <= i < 15 :: CueFree(UnknownSymptomsWords[i], 8, 8) {}
  lemma UnknownSymptomsCueFree() ensures WordsCueFree(UnknownSymptomsWords, 8, 8) { UnknownSymptomsCueFree1(); UnknownSymptomsCueFree2(); UnknownSymptomsCueFree3(); UnknownSymptomsCueFree4(); }

  lemma ConversationalCueFree1() ensures forall i | 0 <= i < 2 :: CueFree(ConversationalWords[i], 8, 8) {}
  lemma ConversationalCueFree2() ensures forall i | 2 <= i < 5 :: CueFree(ConversationalWords[i], 8, 8) {}
  lemma ConversationalCueFree3() ensures forall i | 5 <= i < 8 :: CueFree(ConversationalWords[i], 8, 8) {}
  lemma ConversationalCueFree() ensures WordsCueFree(ConversationalWords, 8, 8) { ConversationalCueFree1(); ConversationalCueFree2(); ConversationalCueFree3(); }

  lemma FeedbackHeadingCueFree1() ensures forall i | 0 <= i < 3 :: CueFree(FeedbackHeadingWords[i], 6, 7) {}
  lemma FeedbackHeadingCueFree2() ensures forall i | 3 <= i < 4 :: CueFree(FeedbackHeadingWords[i], 6, 7) {}
  lemma FeedbackHeadingCueFree() ensures WordsCueFree(FeedbackHeadingWords, 6, 7) { FeedbackHeadingCueFree1(); FeedbackHeadingCueFree2(); }

  lemma FeedbackRequestCueFree1() ensures forall i | 0 <= i < 5 :: CueFree(FeedbackRequestWords[i], 6, 7) {}
  lemma FeedbackRequestCueFree2() ensures forall i | 5 <= i < 9 :: CueFree(FeedbackRequestWords[i], 6, 7) {}
  lemma FeedbackRequestCueFree3() ensures forall i | 9 <= i < 12 :: CueFree(FeedbackRequestWords[i], 6, 7) {}
  lemma FeedbackRequestCueFree() ensures WordsCueFree(FeedbackRequestWords, 6, 7) { FeedbackRequestCueFree1(); FeedbackRequestCueFree2(); FeedbackRequestCueFree3(); }

  lemma FeedbackTopic1CueFree() ensures WordsCueFree(FeedbackTopicWords[0], 6, 7) {}

  lemma FeedbackTopic2CueFree1() ensures forall i | 0 <= i < 3 :: CueFree(FeedbackTopicWords[1][i], 6, 7) {}
  lemma FeedbackTopic2CueFree2() ensures forall i | 3 <= i < 5 :: CueFree(FeedbackTopicWords[1][i], 6, 7) {}
  lemma FeedbackTopic2CueFree() ensures WordsCueFree(FeedbackTopicWords[1], 6, 7) { FeedbackTopic2CueFree1(); FeedbackTopic2CueFree2(); }

  lemma FeedbackTopic3CueFree1() ensures forall i | 0 <= i < 4 :: CueFree(FeedbackTopicWords[2][i], 6, 7) {}
  lemma FeedbackTopic3CueFree2() ensures forall i | 4 <= i < 6 :: CueFree(FeedbackTopicWords[2][i], 6, 7) {}
  lemma FeedbackTopic3CueFree() ensures WordsCueFree(FeedbackTopicWords[2], 6, 7) { FeedbackTopic3CueFree1(); FeedbackTopic3CueFree2(); }

  lemma FeedbackTopic4CueFree1() ensures forall i | 0 <= i < 4 :: CueFree(FeedbackTopicWords[3][i], 6, 7) {}
  lemma FeedbackTopic4CueFree2() ensures forall i | 4 <= i < 5 :: CueFree(FeedbackTopicWords[3][i], 6, 7) {}
  lemma FeedbackTopic4CueFree() ensures WordsCueFree(FeedbackTopicWords[3], 6, 7) { FeedbackTopic4CueFree1(); FeedbackTopic4CueFree2(); }

  lemma FeedbackTopic5CueFree() ensures WordsCueFree(FeedbackTopicWords[4], 6, 7) {}

  lemma FeedbackTopic6CueFree() ensures WordsCueFree(FeedbackTopicWords[5], 6, 7) {}

  lemma FeedbackTopicCueFree() ensures forall k | 0 <= k < |FeedbackTopicWords| :: WordsCueFree(FeedbackTopicWords[k], 6, 7)
  {
    FeedbackTopic1CueFree(); FeedbackTopic2CueFree(); FeedbackTopic3CueFree(); FeedbackTopic4CueFree(); FeedbackTopic5CueFree(); FeedbackTopic6CueFree();
  }

  lemma DemographicsCueFree() ensures CueFree("Demographics", 8, 8) {}
  lemma ChiefComplaintCueFree() ensures CueFree("Chief Complaint", 8, 8) {}
  lemma MedicalHistoryCueFree() ensures CueFree("Medical History", 8, 8) {}
  lemma CurrentMedicationsCueFree() ensures CueFree("Current Medications", 8, 8) {}
  lemma SocialHistoryCueFree() ensures CueFree("Social History", 8, 8) {}
  lemma PersonalityCueFree() ensures CueFree("Personality", 8, 8) {}
  lemma FindingsCueFree() ensures CueFree("Physical/Neurological Findings", 8, 8) {}
  lemma AdditionalSymptomsCueFree() ensures CueFree("Additional Symptoms", 8, 8) {}
  lemma InstructionsLabelCueFree() ensures CueFree("Instructions for Interaction", 8, 8) {}
  lemma CustomLabelCueFree() ensures CueFree("Additional Instructions", 8, 8) {}

  // ---------------------------------------------------------------------
  // absence of cue trigrams, composed

  lemma CueGramsAreGrams()
    ensures |CueGrams| == 8 && forall k | 0 <= k < |CueGrams| :: IsGram(CueGrams[k])
  {
  }

  /** `s` lacks every cue trigram whose number is not in `excepted`. */
  predicate LacksCues(s: string, excepted: set<nat>) {
    forall k | 0 <= k < |CueGrams| && k !in excepted :: LacksTrigram(s, CueGrams[k])
  }

  predicate WordsLackCues(ws: seq<string>, excepted: set<nat>) {
    forall i | 0 <= i < |ws| :: LacksCues(ws[i], excepted)
  }

  predicate ParagraphsLackCues(wss: seq<seq<string>>, excepted: set<nat>) {
    forall k | 0 <= k < |wss| :: WordsLackCues(wss[k], excepted)
  }

  /** A literal certificate gives the trigram absence it spells out. */
  lemma CueFreeLacks(s: string, x: nat, y: nat, excepted: set<nat>)
    requires CueFree(s, x, y)
    requires (x < 8 ==> x in excepted) && (y < 8 ==> y in excepted)
    ensures LacksCues(s, excepted)
  {
    CueGramsAreGrams();
    forall k | 0 <= k < |CueGrams| && k !in excepted
      ensures LacksTrigram(s, CueGrams[k])
    {
      var g := CueGrams[k];
      forall i | 0 <= i < |s| - 2
        ensures !(LowerChar(s[i]) == g[0] && LowerChar(s[i + 1]) == g[1] && LowerChar(s[i + 2]) == g[2])
      {
        LowerCharIs(s[i], g[0]);
        LowerCharIs(s[i + 1], g[1]);
        LowerCharIs(s[i + 2], g[2]);
        if k == 0 {
          assert !Tri(s, i, 'b', 'r', 'i');
        } else if k == 1 {
          assert !Tri(s, i, 'd', 'i', 'r');
        } else if k == 2 {
          assert !Tri(s, i, 'e', 'a', 'd');
        } else if k == 3 {
          assert !Tri(s, i, 'o', 'p', 'e');
        } else if k == 4 {
          assert !Tri(s, i, 'c', 'h', 'a');
        } else if k == 5 {
          assert !Tri(s, i, 'j', 'a', 'r');
        } else if k == 6 {
          assert !Tri(s, i, 'f', 'e', 'e');
        } else {
          assert !Tri(s, i, 't', 'i', 'n');
        }
      }
    }
  }

  lemma WordsCueFreeLack(ws: seq<string>, x: nat, y: nat, excepted: set<nat>)
    requires WordsCueFree(ws, x, y)
    requires (x < 8 ==> x in excepted) && (y < 8 ==> y in excepted)
    ensures WordsLackCues(ws, excepted)
  {
    forall i | 0 <= i < |ws| ensures LacksCues(ws[i], excepted) {
      CueFreeLacks(ws[i], x, y, excepted);
    }
  }

  predicate NoLetters(s: string) {
    forall i | 0 <= i < |s| :: !IsLetter(s[i])
  }

  lemma NoLettersLackCues(s: string, excepted: set<nat>)
    requires NoLetters(s)
    ensures LacksCues(s, excepted)
  {
    CueGramsAreGrams();
    forall k | 0 <= k < |CueGrams| && k !in excepted ensures LacksTrigram(s, CueGrams[k]) {
      NoLettersLack(s, CueGrams[k]);
    }
  }

  /** Gluing at a non-letter creates no cue trigram. */
  lemma LacksCuesGlue(a: string, b: string, excepted: set<nat>)
    requires LacksCues(a, excepted) && LacksCues(b, excepted)
    requires a == [] || b == [] || !IsLetter(a[|a| - 1]) || !IsLetter(b[0])
    ensures LacksCues(a + b, excepted)
  {
    CueGramsAreGrams();
    forall k | 0 <= k < |CueGrams| && k !in excepted ensures LacksTrigram(a + b, CueGrams[k]) {
      LacksTrigramGlue(a, b, CueGrams[k]);
    }
  }

  /** Joining with a separator made of non-letters creates no cue trigram. */
  lemma LacksCuesJoin(parts: seq<string>, sep: string, excepted: set<nat>)
    requires sep != [] && NoLetters(sep)
    requires WordsLackCues(parts, excepted)
    ensures LacksCues(Join(parts, sep), excepted)
  {
    CueGramsAreGrams();
    forall k | 0 <= k < |CueGrams| && k !in excepted ensures LacksTrigram(Join(parts, sep), CueGrams[k]) {
      var g := CueGrams[k];
      NoLettersLack(sep, g);
      NonLetterOutsideGram(sep[0], g);
      NonLetterOutsideGram(sep[|sep| - 1], g);
      LacksTrigramJoin(parts, sep, g);
    }
  }

  lemma SentenceLacksCues(ws: seq<string>, excepted: set<nat>)
    requires WordsLackCues(ws, excepted)
    ensures LacksCues(Sentence(ws), excepted)
  {
    LacksCuesJoin(ws, " ", excepted);
  }

  /** `Labelled(name, sep, v)` lacks the cues its name and value lack. */
  lemma LabelledLacksCues(name: string, sep: string, v: string, excepted: set<nat>)
    requires LacksCues(name, excepted) && LacksCues(v, excepted)
    requires sep != [] && NoLetters(sep)
    ensures LacksCues(Labelled(name, sep, v), excepted)
  {
    NoLettersLackCues("**", excepted);
    NoLettersLackCues(":**", excepted);
    NoLettersLackCues(sep, excepted);
    LacksCuesGlue("**", name, excepted);
    LacksCuesGlue("**" + name, ":**", excepted);
    LacksCuesGlue("**" + name + ":**", sep, excepted);
    LacksCuesGlue("**" + name + ":**" + sep, v, excepted);
  }

  // ---------------------------------------------------------------------
  // the generated prompt lacks every cue whose setting is off

  /** The cue trigrams the chosen revelation paragraph spells. */
  function RevelationCues(level: string): set<nat> {
    if level == "forthcoming" then {2, 3} else if level == "reserved" then {0, 1} else {}
  }

  /** The cue trigrams the directives for `p` may spell: those of its
      revelation paragraph and of each block whose setting is on. */
  function ExceptedCues(p: StructuredPrompt): set<nat> {
    RevelationCues(p.revelationLevel)
    + (if p.stayInCharacter then {4} else {})
    + (if p.avoidMedicalJargon then {5} else {})
    + (if p.provideFeedback then {6, 7} else {})
  }

  lemma RevelationLacksCues(level: string, excepted: set<nat>)
    requires RevelationCues(level) <= excepted
    ensures WordsLackCues(RevelationWords(level), excepted)
  {
    if level == "forthcoming" {
      ForthcomingCueFree();
      WordsCueFreeLack(ForthcomingWords, 2, 3, excepted);
    } else if level == "reserved" {
      ReservedCueFree();
      WordsCueFreeLack(ReservedWords, 0, 1, excepted);
    } else {
      ModerateCueFree();
      WordsCueFreeLack(ModerateWords, 8, 8, excepted);
    }
  }

  lemma StayLacksCues(excepted: set<nat>)
    requires 4 in excepted
    ensures ParagraphsLackCues(StayWords, excepted)
  {
    StayInCharacterCueFree();
    RespondAsPatientCueFree();
    WordsCueFreeLack(StayInCharacterWords, 4, 4, excepted);
    WordsCueFreeLack(RespondAsPatientWords, 8, 8, excepted);
  }

  lemma JargonLacksCues(excepted: set<nat>)
    requires 5 in excepted
    ensures ParagraphsLackCues(JargonWords, excepted)
  {
    AvoidJargonCueFree();
    ExpressConfusionCueFree();
    AskToExplainCueFree();
    WordsCueFreeLack(AvoidJargonWords, 5, 5, excepted);
    WordsCueFreeLack(ExpressConfusionWords, 8, 8, excepted);
    WordsCueFreeLack(AskToExplainWords, 8, 8, excepted);
  }

  lemma UniversalLacksCues(excepted: set<nat>)
    ensures ParagraphsLackCues(UniversalWords, excepted)
  {
    ConsistentCueFree();
    UnknownSymptomsCueFree();
    ConversationalCueFree();
    WordsCueFreeLack(ConsistentWords, 8, 8, excepted);
    WordsCueFreeLack(UnknownSymptomsWords, 8, 8, excepted);
    WordsCueFreeLack(ConversationalWords, 8, 8, excepted);
  }

  lemma FeedbackLacksCues(excepted: set<nat>)
    requires 6 in excepted && 7 in excepted
    ensures ParagraphsLackCues(FeedbackWords, excepted)
  {
    FeedbackHeadingCueFree();
    FeedbackRequestCueFree();
    FeedbackTopicCueFree();
    WordsCueFreeLack(FeedbackHeadingWords, 6, 7, excepted);
    WordsCueFreeLack(FeedbackRequestWords, 6, 7, excepted);
    forall k | 0 <= k < |FeedbackTopicWords| ensures WordsLackCues(FeedbackTopicWords[k], excepted) {
      WordsCueFreeLack(FeedbackTopicWords[k], 6, 7, excepted);
    }
  }

  /** Every directive lacks the cues of the settings that are off. */
  lemma DirectivesLackCues(p: StructuredPrompt)
    ensures WordsLackCues(Directives(p), ExceptedCues(p))
  {
    var e := ExceptedCues(p);
    var first := RevelationWords(p.revelationLevel);
    var b := Block(p.stayInCharacter, StayWords);
    var c := Block(p.avoidMedicalJargon, JargonWords);
    var f := Block(p.provideFeedback, FeedbackWords);
    RevelationLacksCues(p.revelationLevel, e);
    if p.stayInCharacter { StayLacksCues(e); }
    if p.avoidMedicalJargon { JargonLacksCues(e); }
    UniversalLacksCues(e);
    if p.provideFeedback { FeedbackLacksCues(e); }
    var wss := DirectiveWords(p);
    assert wss == [first] + b + c + UniversalWords + f;
    assert ParagraphsLackCues(wss, e);
    forall k | 0 <= k < |Directives(p)| ensures LacksCues(Directives(p)[k], e) {
      SentenceLacksCues(wss[k], e);
    }
  }

  lemma NumberedLacksCues(items: seq<string>, excepted: set<nat>)
    requires WordsLackCues(items, excepted)
    ensures WordsLackCues(Numbered(items), excepted)
  {
    forall k | 0 <= k < |items| ensures LacksCues(Numbered(items)[k], excepted) {
      var num := NatToString(k + 1);
      NoLettersLackCues(num, excepted);
      NoLettersLackCues(". ", excepted);
      LacksCuesGlue(num, ". ", excepted);
      LacksCuesGlue(num + ". ", items[k], excepted);
    }
  }

  lemma InstructionsSectionLacksCues(items: seq<string>, excepted: set<nat>)
    requires WordsLackCues(items, excepted)
    ensures LacksCues(InstructionsSection(items), excepted)
  {
    NumberedLacksCues(items, excepted);
    LacksCuesJoin(Numbered(items), "\n", excepted);
    InstructionsLabelCueFree();
    CueFreeLacks("Instructions for Interaction", 8, 8, excepted);
    LabelledLacksCues("Instructions for Interaction", "\n", Join(Numbered(items), "\n"), excepted);
    NoLettersLackCues("\n", excepted);
    LacksCuesGlue("\n", Labelled("Instructions for Interaction", "\n", Join(Numbered(items), "\n")), excepted);
  }

  lemma CustomSectionLacksCues(v: string, excepted: set<nat>)
    requires LacksCues(v, excepted)
    ensures LacksCues(CustomSection(v), excepted)
  {
    CustomLabelCueFree();
    CueFreeLacks("Additional Instructions", 8, 8, excepted);
    LabelledLacksCues("Additional Instructions", "\n", v, excepted);
    NoLettersLackCues("\n", excepted);
    LacksCuesGlue("\n", Labelled("Additional Instructions", "\n", v), excepted);
  }

  /** A labelled section whose label is certified lacks what its value lacks. */
  lemma CertifiedLabelledLacksCues(name: string, sep: string, v: string, excepted: set<nat>)
    requires CueFree(name, 8, 8) && LacksCues(v, excepted)
    requires sep != [] && NoLetters(sep)
    ensures LacksCues(Labelled(name, sep, v), excepted)
  {
    CueFreeLacks(name, 8, 8, excepted);
    LabelledLacksCues(name, sep, v, excepted);
  }

  lemma ProfileSectionLacksCues(i: nat, v: string, excepted: set<nat>)
    requires i < 8 && LacksCues(v, excepted)
    ensures LacksCues(ProfileSection(i, v), excepted)
  {
    match i
    case 0 =>
      DemographicsCueFree();
      CertifiedLabelledLacksCues("Demographics", " ", v, excepted);
    case 1 =>
      ChiefComplaintCueFree();
      CertifiedLabelledLacksCues("Chief Complaint", " \"", v, excepted);
      NoLettersLackCues("\"", excepted);
      LacksCuesGlue(Labelled("Chief Complaint", " \"", v), "\"", excepted);
    case 2 =>
      MedicalHistoryCueFree();
      CertifiedLabelledLacksCues("Medical History", " ", v, excepted);
    case 3 =>
      CurrentMedicationsCueFree();
      CertifiedLabelledLacksCues("Current Medications", " ", v, excepted);
    case 4 =>
      SocialHistoryCueFree();
      CertifiedLabelledLacksCues("Social History", " ", v, excepted);
    case 5 =>
      PersonalityCueFree();
      CertifiedLabelledLacksCues("Personality", " ", v, excepted);
    case 6 =>
      FindingsCueFree();
      CertifiedLabelledLacksCues("Physical/Neurological Findings", "\n", v, excepted);
      NoLettersLackCues("\n", excepted);
      LacksCuesGlue("\n", Labelled("Physical/Neurological Findings", "\n", v), excepted);
    case 7 =>
      AdditionalSymptomsCueFree();
      CertifiedLabelledLacksCues("Additional Symptoms", "\n", v, excepted);
  }

  lemma {:induction false} ProfileSectionsFromLackCues(fs: seq<string>, i: nat, excepted: set<nat>)
    requires |fs| == 8 && i <= 8 && WordsLackCues(fs, excepted)
    ensures WordsLackCues(ProfileSectionsFrom(fs, i), excepted)
    decreases 8 - i
  {
    if i < 8 {
      ProfileSectionsFromLackCues(fs, i + 1, excepted);
      if fs[i] != "" {
        ProfileSectionLacksCues(i, fs[i], excepted);
      }
    }
  }

  lemma SectionsOfLackCues(profile: seq<string>, items: seq<string>, custom: string, excepted: set<nat>)
    requires WordsLackCues(profile, excepted) && WordsLackCues(items, excepted)
    requires LacksCues(custom, excepted)
    ensures WordsLackCues(SectionsOf(profile, items, custom), excepted)
  {
    InstructionsSectionLacksCues(items, excepted);
    if custom != "" {
      CustomSectionLacksCues(custom, excepted);
    }
  }

  /** Trigram absence in the fields carries over to any set of exceptions. */
  lemma FieldsLackCues(p: StructuredPrompt, excepted: set<nat>)
    requires WordsLackCues(TextFields(p), {})
    ensures WordsLackCues(ProfileFields(p), excepted) && LacksCues(p.customInstructions, excepted)
  {
    assert forall k | 0 <= k < 8 :: ProfileFields(p)[k] == TextFields(p)[k];
    assert TextFields(p)[8] == p.customInstructions;
  }

  /** When no free-text field spells a cue trigram, the generated prompt
      spells only the cue trigrams of the settings that are on. */
  lemma SectionsLackCues(p: StructuredPrompt, e: set<nat>)
    requires WordsLackCues(TextFields(p), {}) && WordsLackCues(Directives(p), e)
    ensures WordsLackCues(Sections(p), e)
  {
    FieldsLackCues(p, e);
    ProfileSectionsFromLackCues(ProfileFields(p), 0, e);
    SectionsOfLackCues(ProfileSections(p), Directives(p), p.customInstructions, e);
  }

  lemma GenerateLacksCuesGiven(p: StructuredPrompt, e: set<nat>)
    requires WordsLackCues(TextFields(p), {}) && WordsLackCues(Directives(p), e)
    ensures LacksCues(Generate(p), e)
  {
    SectionsLackCues(p, e);
    LacksCuesJoin(Sections(p), "\n\n", e);
  }

  lemma GenerateLacksCues(p: StructuredPrompt)
    requires WordsLackCues(TextFields(p), {})
    ensures LacksCues(Generate(p), ExceptedCues(p))
  {
    DirectivesLackCues(p);
    GenerateLacksCuesGiven(p, ExceptedCues(p));
  }

  // ---------------------------------------------------------------------
  // what the cues then see

  /** A text that lacks "bri" and "dir" gives no reserved cue. */
  lemma ReservedCueAbsent(s: string, excepted: set<nat>)
    requires LacksCues(s, excepted) && 0 !in excepted && 1 !in excepted
    ensures !ReservedCue(Lower(s))
  {
    assert "brief"[0..3] == CueGrams[0];
    LacksTrigramExcludes(s, "brief", 0);
    var phrase := "only reveal information when directly asked";
    assert phrase[29..32] == CueGrams[1];
    LacksTrigramExcludes(s, phrase, 29);
  }

  lemma ForthcomingCueAbsent(s: string, excepted: set<nat>)
    requires LacksCues(s, excepted) && 2 !in excepted && 3 !in excepted
    ensures !ForthcomingCue(Lower(s))
  {
    var phrase := "detailed information readily";
    assert phrase[22..25] == CueGrams[2];
    LacksTrigramExcludes(s, phrase, 22);
    assert "open and communicative"[0..3] == CueGrams[3];
    LacksTrigramExcludes(s, "open and communicative", 0);
  }

  lemma StayCueAbsent(s: string, excepted: set<nat>)
    requires LacksCues(s, excepted) && 4 !in excepted
    ensures !StayCue(Lower(s))
  {
    assert "stay in character"[8..11] == CueGrams[4];
    LacksTrigramExcludes(s, "stay in character", 8);
    assert "maintain character"[9..12] == CueGrams[4];
    LacksTrigramExcludes(s, "maintain character", 9);
  }

  lemma JargonCueAbsent(s: string, excepted: set<nat>)
    requires LacksCues(s, excepted) && 5 !in excepted
    ensures !JargonCue(Lower(s))
  {
    assert "jargon"[0..3] == CueGrams[5];
    LacksTrigramExcludes(s, "jargon", 0);
  }

  lemma FeedbackCueAbsent(s: string, excepted: set<nat>)
    requires LacksCues(s, excepted) && 6 !in excepted && 7 !in excepted
    ensures !FeedbackCue(Lower(s))
  {
    assert "feedback"[0..3] == CueGrams[6];
    LacksTrigramExcludes(s, "feedback", 0);
    assert "rating"[2..5] == CueGrams[7];
    LacksTrigramExcludes(s, "rating", 2);
  }

  /** A cue found in one word is found in the sentence. */
  lemma WordInSentence(ws: seq<string>, k: nat, t: string)
    requires k < |ws| && Contains(Lower(ws[k]), t)
    ensures Contains(Lower(Sentence(ws)), t)
  {
    JoinAround(ws, " ", k);
    ContainsLowerInfix(if k == 0 then "" else Join(ws[..k], " ") + " ",
                       ws[k],
                       if k == |ws| - 1 then "" else " " + Join(ws[k + 1..], " "), t);
  }

  lemma SliceSplit<T>(ws: seq<T>, a: nat, b: nat)
    requires a <= b <= |ws|
    ensures ws[a..b] + ws[b..] == ws[a..]
  {
  }

  /** A cue found in a run of words is found in the sentence. */
  lemma PhraseInSentence(ws: seq<string>, a: nat, b: nat, t: string)
    requires a < b <= |ws| && Contains(Lower(Sentence(ws[a..b])), t)
    ensures Contains(Lower(Sentence(ws)), t)
  {
    var mid := Sentence(ws[a..b]);
    var before := if a == 0 then "" else Join(ws[..a], " ") + " ";
    var after := if b == |ws| then "" else " " + Join(ws[b..], " ");
    var rest := ws[a..];
    if b < |ws| {
      JoinAppend(ws[a..b], ws[b..], " ");
      SliceSplit(ws, a, b);
    } else {
      assert ws[a..b] == rest;
    }
    assert Join(rest, " ") == mid + after;
    if a > 0 {
      JoinAppend(ws[..a], rest, " ");
      SliceSplit(ws, 0, a);
      assert ws[0..a] == ws[..a] && ws[0..] == ws;
    } else {
      assert rest == ws;
    }
    assert Sentence(ws) == before + mid + after;
    ContainsLowerInfix(before, mid, after, t);
  }

  lemma NumberedLineContains(items: seq<string>, k: nat, t: string)
    requires k < |items| && Contains(Lower(items[k]), t)
    ensures Contains(Lower(Numbered(items)[k]), t)
  {
    var num := NatToString(k + 1) + ". ";
    assert Numbered(items)[k] == num + items[k] + "";
    ContainsLowerInfix(num, items[k], "", t);
  }

  lemma JoinPartContains(parts: seq<string>, sep: string, k: nat, t: string)
    requires k < |parts| && Contains(Lower(parts[k]), t)
    ensures Contains(Lower(Join(parts, sep)), t)
  {
    JoinAround(parts, sep, k);
    ContainsLowerInfix(if k == 0 then "" else Join(parts[..k], sep) + sep,
                       parts[k],
                       if k == |parts| - 1 then "" else sep + Join(parts[k + 1..], sep), t);
  }

  lemma InstructionsSectionContains(items: seq<string>, k: nat, t: string)
    requires k < |items| && Contains(Lower(items[k]), t)
    ensures Contains(Lower(InstructionsSection(items)), t)
  {
    NumberedLineContains(items, k, t);
    JoinPartContains(Numbered(items), "\n", k, t);
    var body := Join(Numbered(items), "\n");
    var head := "\n" + "**" + "Instructions for Interaction" + ":**" + "\n";
    assert InstructionsSection(items) == head + body + "";
    ContainsLowerInfix(head, body, "", t);
  }

  /** A cue found in one directive is found in the whole generated prompt. */
  lemma DirectiveInGenerate(p: StructuredPrompt, k: nat, t: string)
    requires k < |Directives(p)| && Contains(Lower(Directives(p)[k]), t)
    ensures Contains(Lower(Generate(p)), t)
  {
    InstructionsSectionContains(Directives(p), k, t);
    GenerateLayout(p);
    ContainsLowerInfix(JoinedBefore(ProfileSections(p), "\n\n"), InstructionsSection(Directives(p)),
                       JoinedAfter(CustomSections(p.customInstructions), "\n\n"), t);
  }

  lemma ContainsItself(s: string)
    ensures Contains(s, s)
  {
    assert OccursAt(s, s, 0);
  }

  lemma JoinThreeWords(a: string, b: string, c: string)
    ensures Sentence([a, b, c]) == a + " " + b + " " + c
  {
    assert [a, b, c][1..] == [b, c];
    assert [b, c][1..] == [c];
    assert Join([c], " ") == c;
    assert Join([b, c], " ") == b + " " + c;
  }

  /** The phrase `a b c`, lowercased, is found in the sentence `ws` when
      `a`, `b`, `c` are its words `i`, `i + 1`, `i + 2`. */
  lemma ThreeWordsInSentence(ws: seq<string>, i: nat, a: string, b: string, c: string, t: string)
    requires i + 3 <= |ws| && ws[i] == a && ws[i + 1] == b && ws[i + 2] == c
    requires t == Lower(a) + " " + Lower(b) + " " + Lower(c)
    ensures Contains(Lower(Sentence(ws)), t)
  {
    assert ws[i..i + 3] == [a, b, c];
    JoinThreeWords(a, b, c);
    LowerConcat(a + " " + b + " ", c);
    LowerConcat(a + " " + b, " ");
    LowerConcat(a + " ", b);
    LowerConcat(a, " ");
    assert Lower(" ") == " ";
    assert Lower(Sentence(ws[i..i + 3])) == t;
    ContainsItself(t);
    PhraseInSentence(ws, i, i + 3, t);
  }

  lemma ReservedWordsAt()
    ensures |ReservedWords| == 20 && ReservedWords[9] == "brief," && ReservedWords[10] == "minimal"
  {
  }

  /** A sentence with the words "brief," and "minimal" gives the reserved cue. */
  lemma ReservedPhraseIn(ws: seq<string>)
    requires |ws| > 10 && ws[9] == "brief," && ws[10] == "minimal"
    ensures Contains(Lower(Sentence(ws)), "brief") && Contains(Lower(Sentence(ws)), "minimal")
  {
    assert OccursAt(Lower("brief,"), "brief", 0);
    WordInSentence(ws, 9, "brief");
    assert Lower("minimal") == "minimal";
    ContainsItself("minimal");
    WordInSentence(ws, 10, "minimal");
  }

  lemma ForthcomingWordsAt()
    ensures |ForthcomingWords| == 14 && ForthcomingWords[7] == "open"
    ensures ForthcomingWords[8] == "and" && ForthcomingWords[9] == "communicative"
  {
  }

  lemma ForthcomingPhraseIn(ws: seq<string>)
    requires |ws| > 9 && ws[7] == "open" && ws[8] == "and" && ws[9] == "communicative"
    ensures Contains(Lower(Sentence(ws)), "open and communicative")
  {
    LowerWithoutCapitals("open");
    LowerWithoutCapitals("and");
    LowerWithoutCapitals("communicative");
    OpenAndCommunicative();
    ThreeWordsInSentence(ws, 7, "open", "and", "communicative", "open and communicative");
  }

  lemma OpenAndCommunicative()
    ensures "open" + " " + "and" + " " + "communicative" == "open and communicative"
  {
  }

  lemma StayWordsAt()
    ensures |StayInCharacterWords| == 9 && StayInCharacterWords[0] == "Stay"
    ensures StayInCharacterWords[1] == "in" && StayInCharacterWords[2] == "character"
  {
  }

  lemma StayPhraseIn(ws: seq<string>)
    requires |ws| > 2 && ws[0] == "Stay" && ws[1] == "in" && ws[2] == "character"
    ensures Contains(Lower(Sentence(ws)), "stay in character")
  {
    assert Lower("Stay") == "stay";
    LowerWithoutCapitals("in");
    LowerWithoutCapitals("character");
    ThreeWordsInSentence(ws, 0, "Stay", "in", "character", "stay in character");
  }

  lemma AvoidJargonWordsAt()
    ensures |AvoidJargonWords| == 16 && AvoidJargonWords[0] == "Avoid" && AvoidJargonWords[3] == "jargon"
  {
  }

  lemma JargonPhraseIn(ws: seq<string>)
    requires |ws| > 3 && ws[0] == "Avoid" && ws[3] == "jargon"
    ensures Contains(Lower(Sentence(ws)), "avoid") && Contains(Lower(Sentence(ws)), "jargon")
  {
    assert Lower("Avoid") == "avoid";
    ContainsItself("avoid");
    WordInSentence(ws, 0, "avoid");
    assert Lower("jargon") == "jargon";
    ContainsItself("jargon");
    WordInSentence(ws, 3, "jargon");
  }

  lemma FeedbackRequestWordsAt()
    ensures |FeedbackRequestWords| == 12 && FeedbackRequestWords[10] == "feedback"
  {
  }

  lemma FeedbackPhraseIn(ws: seq<string>)
    requires |ws| > 10 && ws[10] == "feedback"
    ensures Contains(Lower(Sentence(ws)), "feedback")
  {
    assert Lower("feedback") == "feedback";
    ContainsItself("feedback");
    WordInSentence(ws, 10, "feedback");
  }

  /** Item `j` of a block of sentences found at `r[lo..hi]`. */
  lemma BlockItem(r: seq<string>, lo: nat, hi: nat, ps: seq<seq<string>>, j: nat)
    requires lo <= hi <= |r| && r[lo..hi] == Sentences(ps) && j < |ps|
    ensures lo + j < |r| && r[lo + j] == Sentence(ps[j])
  {
    assert r[lo + j] == r[lo..hi][j];
  }

  lemma DirectiveBlocksAt()
    ensures StayWords[0] == StayInCharacterWords && JargonWords[0] == AvoidJargonWords
    ensures |FeedbackWords| == 8 && FeedbackWords[1] == FeedbackRequestWords
  {
  }

  // ---------------------------------------------------------------------
  // the round trip of the settings

  /** The revelation level the generator acts on: any value other than
      "forthcoming" and "reserved" produces the moderate paragraph. */
  function EffectiveLevel(level: string): (r: string)
    ensures r in {"forthcoming", "moderate", "reserved"}
    ensures RevelationDirective(r) == RevelationDirective(level)
  {
    if level == "forthcoming" || level == "reserved" then level else "moderate"
  }

  /** The settings `parsePrompt` reports, in terms of the phrases it looks
      for in the lowercased text: reserved when it finds "brief" and
      "minimal" or the reserved paragraph's opening, otherwise forthcoming
      when it finds one of the forthcoming phrases, otherwise moderate; each
      flag when it finds its phrase. */
  lemma ParseSettings(s: string)
    ensures var q := Parse(s); var lower := Lower(s);
      (q.revelationLevel == "reserved" <==>
        (Contains(lower, "brief") && Contains(lower, "minimal"))
        || Contains(lower, "only reveal information when directly asked"))
      && (q.revelationLevel == "forthcoming" <==>
        !((Contains(lower, "brief") && Contains(lower, "minimal"))
          || Contains(lower, "only reveal information when directly asked"))
        && (Contains(lower, "detailed information readily") || Contains(lower, "open and communicative")))
      && (q.revelationLevel == "moderate" <==> q.revelationLevel != "reserved" && q.revelationLevel != "forthcoming")
      && (q.stayInCharacter <==> Contains(lower, "stay in character") || Contains(lower, "maintain character"))
      && (q.avoidMedicalJargon <==> Contains(lower, "avoid") && Contains(lower, "jargon"))
      && (q.provideFeedback <==> Contains(lower, "feedback") || Contains(lower, "rating"))
  {
  }

  lemma ReservedRecognised(p: StructuredPrompt)
    requires p.revelationLevel == "reserved"
    ensures ReservedCue(Lower(Generate(p)))
  {
    DirectivesLayout(p);
    ReservedWordsAt();
    ReservedPhraseIn(ReservedWords);
    DirectiveInGenerate(p, 0, "brief");
    DirectiveInGenerate(p, 0, "minimal");
  }

  lemma ForthcomingRecognised(p: StructuredPrompt)
    requires p.revelationLevel == "forthcoming"
    ensures ForthcomingCue(Lower(Generate(p)))
  {
    DirectivesLayout(p);
    ForthcomingWordsAt();
    ForthcomingPhraseIn(ForthcomingWords);
    DirectiveInGenerate(p, 0, "open and communicative");
  }

  /** A cue trigram is excepted only when its setting is on. */
  lemma ExceptedCuesOnlyWhenOn(p: StructuredPrompt)
    ensures p.revelationLevel != "reserved" ==> 0 !in ExceptedCues(p) && 1 !in ExceptedCues(p)
    ensures p.revelationLevel != "forthcoming" ==> 2 !in ExceptedCues(p) && 3 !in ExceptedCues(p)
    ensures !p.stayInCharacter ==> 4 !in ExceptedCues(p)
    ensures !p.avoidMedicalJargon ==> 5 !in ExceptedCues(p)
    ensures !p.provideFeedback ==> 6 !in ExceptedCues(p) && 7 !in ExceptedCues(p)
  {
  }

  /** What the generated prompt lacks, restated for the off settings. */
  lemma GenerateLacksOffCues(p: StructuredPrompt)
    requires WordsLackCues(TextFields(p), {})
    ensures var s := Generate(p);
      (p.revelationLevel != "reserved" ==> !ReservedCue(Lower(s)))
      && (p.revelationLevel != "forthcoming" ==> !ForthcomingCue(Lower(s)))
      && (!p.stayInCharacter ==> !StayCue(Lower(s)))
      && (!p.avoidMedicalJargon ==> !JargonCue(Lower(s)))
      && (!p.provideFeedback ==> !FeedbackCue(Lower(s)))
  {
    GenerateLacksCues(p);
    ExceptedCuesOnlyWhenOn(p);
    OffCuesAbsent(Generate(p), ExceptedCues(p), p.revelationLevel != "reserved",
                  p.revelationLevel != "forthcoming", !p.stayInCharacter, !p.avoidMedicalJargon, !p.provideFeedback);
  }

  lemma OffCuesAbsent(s: string, e: set<nat>, noReserved: bool, noForthcoming: bool,
                      noStay: bool, noJargon: bool, noFeedback: bool)
    requires LacksCues(s, e)
    requires noReserved ==> 0 !in e && 1 !in e
    requires noForthcoming ==> 2 !in e && 3 !in e
    requires noStay ==> 4 !in e
    requires noJargon ==> 5 !in e
    requires noFeedback ==> 6 !in e && 7 !in e
    ensures noReserved ==> !ReservedCue(Lower(s))
    ensures noForthcoming ==> !ForthcomingCue(Lower(s))
    ensures noStay ==> !StayCue(Lower(s))
    ensures noJargon ==> !JargonCue(Lower(s))
    ensures noFeedback ==> !FeedbackCue(Lower(s))
  {
    if noReserved { ReservedCueAbsent(s, e); }
    if noForthcoming { ForthcomingCueAbsent(s, e); }
    if noStay { StayCueAbsent(s, e); }
    if noJargon { JargonCueAbsent(s, e); }
    if noFeedback { FeedbackCueAbsent(s, e); }
  }

  /** Settings whose free text spells no cue trigram read back with the
      revelation level the generator acted on. */
  lemma RevelationRoundTrip(p: StructuredPrompt)
    requires WordsLackCues(TextFields(p), {})
    ensures DetectRevelation(Lower(Generate(p))) == EffectiveLevel(p.revelationLevel)
  {
    GenerateLacksOffCues(p);
    if p.revelationLevel == "reserved" {
      ReservedRecognised(p);
    } else if p.revelationLevel == "forthcoming" {
      ForthcomingRecognised(p);
    }
  }

  lemma StayDirectiveAt(p: StructuredPrompt)
    requires p.stayInCharacter
    ensures 1 < |Directives(p)| && Directives(p)[1] == Sentence(StayInCharacterWords)
  {
    DirectivesOptionalBlocks(p);
    BlockItem(Directives(p), 1, 3, StayWords, 0);
    DirectiveBlocksAt();
  }

  lemma StayRecognised(p: StructuredPrompt)
    requires p.stayInCharacter
    ensures StayCue(Lower(Generate(p)))
  {
    StayDirectiveAt(p);
    StayWordsAt();
    StayPhraseIn(StayInCharacterWords);
    DirectiveInGenerate(p, 1, "stay in character");
  }

  lemma StayRoundTrip(p: StructuredPrompt)
    requires WordsLackCues(TextFields(p), {})
    ensures StayCue(Lower(Generate(p))) == p.stayInCharacter
  {
    if p.stayInCharacter {
      StayRecognised(p);
    } else {
      GenerateLacksOffCues(p);
    }
  }

  /** Where the jargon paragraph's first directive sits. */
  function JargonIndex(p: StructuredPrompt): nat {
    if p.stayInCharacter then 3 else 1
  }

  lemma JargonDirectiveAt(p: StructuredPrompt)
    requires p.avoidMedicalJargon
    ensures JargonIndex(p) < |Directives(p)| && Directives(p)[JargonIndex(p)] == Sentence(AvoidJargonWords)
  {
    DirectivesOptionalBlocks(p);
    BlockItem(Directives(p), JargonIndex(p), JargonIndex(p) + 3, JargonWords, 0);
    DirectiveBlocksAt();
  }

  lemma JargonRecognised(p: StructuredPrompt)
    requires p.avoidMedicalJargon
    ensures JargonCue(Lower(Generate(p)))
  {
    JargonDirectiveAt(p);
    AvoidJargonWordsAt();
    JargonPhraseIn(AvoidJargonWords);
    DirectiveInGenerate(p, JargonIndex(p), "avoid");
    DirectiveInGenerate(p, JargonIndex(p), "jargon");
  }

  lemma JargonRoundTrip(p: StructuredPrompt)
    requires WordsLackCues(TextFields(p), {})
    ensures JargonCue(Lower(Generate(p))) == p.avoidMedicalJargon
  {
    if p.avoidMedicalJargon {
      JargonRecognised(p);
    } else {
      GenerateLacksOffCues(p);
    }
  }

  /** Where the feedback request sits: after the heading that follows the
      universal directives. */
  function FeedbackRequestIndex(p: StructuredPrompt): nat {
    1 + (if p.stayInCharacter then 2 else 0) + (if p.avoidMedicalJargon then 3 else 0) + 4
  }

  lemma FeedbackDirectiveAt(p: StructuredPrompt)
    requires p.provideFeedback
    ensures FeedbackRequestIndex(p) < |Directives(p)|
    ensures Directives(p)[FeedbackRequestIndex(p)] == Sentence(FeedbackRequestWords)
  {
    DirectivesOptionalBlocks(p);
    DirectiveBlocksAt();
    var r := Directives(p);
    var lo := FeedbackRequestIndex(p) - 1;
    BlockItem(r, lo, |r|, FeedbackWords, 1);
    assert r[lo..|r|] == r[lo..];
  }

  lemma FeedbackRecognised(p: StructuredPrompt)
    requires p.provideFeedback
    ensures FeedbackCue(Lower(Generate(p)))
  {
    FeedbackDirectiveAt(p);
    FeedbackRequestWordsAt();
    FeedbackPhraseIn(FeedbackRequestWords);
    DirectiveInGenerate(p, FeedbackRequestIndex(p), "feedback");
  }

  lemma FeedbackRoundTrip(p: StructuredPrompt)
    requires WordsLackCues(TextFields(p), {})
    ensures FeedbackCue(Lower(Generate(p))) == p.provideFeedback
  {
    if p.provideFeedback {
      FeedbackRecognised(p);
    } else {
      GenerateLacksOffCues(p);
    }
  }

  /** Reading a generated prompt back recovers the revelation level the
      generator acted on and all three behaviour settings, provided no
      free-text field spells one of the cue trigrams in any letter case. */
  lemma ParseGenerateSettings(p: StructuredPrompt)
    requires WordsLackCues(TextFields(p), {})
    ensures var q := Parse(Generate(p));
      q.revelationLevel == EffectiveLevel(p.revelationLevel)
      && q.stayInCharacter == p.stayInCharacter
      && q.avoidMedicalJargon == p.avoidMedicalJargon
      && q.provideFeedback == p.provideFeedback
  {
    RevelationRoundTrip(p);
    StayRoundTrip(p);
    JargonRoundTrip(p);
    FeedbackRoundTrip(p);
  }

  /** With every free-text field empty, the settings survive the round trip. */
  lemma ParseGenerateSettingsWhenEmpty(p: StructuredPrompt)
    requires forall k | 0 <= k < |TextFields(p)| :: TextFields(p)[k] == ""
    ensures var q := Parse(Generate(p));
      q.revelationLevel == EffectiveLevel(p.revelationLevel)
      && q.stayInCharacter == p.stayInCharacter
      && q.avoidMedicalJargon == p.avoidMedicalJargon
      && q.provideFeedback == p.provideFeedback
  {
    forall k | 0 <= k < |TextFields(p)| ensures LacksCues(TextFields(p)[k], {}) {
      NoLettersLackCues(TextFields(p)[k], {});
    }
    ParseGenerateSettings(p);
  }

  // ---------------------------------------------------------------------
  // the revelation paragraphs are told apart by their cues

  lemma BriefAbsent(s: string, excepted: set<nat>)
    requires LacksCues(s, excepted) && 0 !in excepted
    ensures !Contains(Lower(s), "brief")
  {
    assert "brief"[0..3] == CueGrams[0];
    LacksTrigramExcludes(s, "brief", 0);
  }

  /** The three revelation paragraphs are different texts: only the reserved
      one says "brief", and only the forthcoming one says "open and
      communicative". */
  lemma RevelationParagraphsDistinct()
    ensures Sentence(ForthcomingWords) != Sentence(ReservedWords)
    ensures Sentence(ForthcomingWords) != Sentence(ModerateWords)
    ensures Sentence(ReservedWords) != Sentence(ModerateWords)
  {
    ReservedSaysBrief();
    ForthcomingSaysOpen();
    ModerateSaysNeither();
  }

  lemma ReservedSaysBrief()
    ensures Contains(Lower(Sentence(ReservedWords)), "brief")
  {
    ReservedWordsAt();
    ReservedPhraseIn(ReservedWords);
  }

  lemma ForthcomingSaysOpen()
    ensures Contains(Lower(Sentence(ForthcomingWords)), "open and communicative")
    ensures !Contains(Lower(Sentence(ForthcomingWords)), "brief")
  {
    ForthcomingSaysOpenPhrase();
    ForthcomingNotBrief();
  }

  lemma ForthcomingSaysOpenPhrase()
    ensures Contains(Lower(Sentence(ForthcomingWords)), "open and communicative")
  {
    ForthcomingWordsAt();
    ForthcomingPhraseIn(ForthcomingWords);
  }

  lemma ForthcomingNotBrief()
    ensures !Contains(Lower(Sentence(ForthcomingWords)), "brief")
  {
    ForthcomingCueFree();
    SentenceNotBrief(ForthcomingWords, 2, 3);
  }

  lemma ModerateSaysNeither()
    ensures !Contains(Lower(Sentence(ModerateWords)), "open and communicative")
    ensures !Contains(Lower(Sentence(ModerateWords)), "brief")
  {
    ModerateCueFree();
    SentenceNotBrief(ModerateWords, 8, 8);
    SentenceNotOpen(ModerateWords, 8, 8);
  }

  /** A sentence of words free of "bri" does not say "brief". */
  lemma SentenceNotBrief(ws: seq<string>, x: nat, y: nat)
    requires WordsCueFree(ws, x, y) && x != 0 && y != 0
    ensures !Contains(Lower(Sentence(ws)), "brief")
  {
    WordsCueFreeLack(ws, x, y, {x, y});
    SentenceLacksCues(ws, {x, y});
    BriefAbsent(Sentence(ws), {x, y});
  }

  /** A sentence of words free of "ope" does not say "open and communicative". */
  lemma SentenceNotOpen(ws: seq<string>, x: nat, y: nat)
    requires WordsCueFree(ws, x, y) && x != 3 && y != 3
    ensures !Contains(Lower(Sentence(ws)), "open and communicative")
  {
    WordsCueFreeLack(ws, x, y, {x, y});
    SentenceLacksCues(ws, {x, y});
    assert "open and communicative"[0..3] == CueGrams[3];
    LacksTrigramExcludes(Sentence(ws), "open and communicative", 0);
  }

  /** Instruction item 1 is the forthcoming paragraph exactly for
      "forthcoming", the reserved paragraph exactly for "reserved", and the
      moderate paragraph for every other value. */
  lemma RevelationChoice(level: string)
    ensures RevelationDirective(level) == Sentence(ForthcomingWords) <==> level == "forthcoming"
    ensures RevelationDirective(level) == Sentence(ReservedWords) <==> level == "reserved"
    ensures RevelationDirective(level) == Sentence(ModerateWords) <==> level != "forthcoming" && level != "reserved"
  {
    RevelationParagraphsDistinct();
  }
}
