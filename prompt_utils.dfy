/** The persona prompt compiler and its best-effort inverse: a structured
    persona description is turned into a labelled, numbered prompt text, and
    a prompt text is read back into the structure with case-insensitive label
    matching and lowercase substring cues. */
module PromptUtils {
  import opened Wrappers
  import opened Text

  /** The editor's structured view of a persona prompt. `revelationLevel` is
      meant to be "forthcoming", "moderate" or "reserved", but the generator
      treats any other value as moderate, so it is kept as a string. */
  datatype StructuredPrompt = StructuredPrompt(
    demographics: string,
    chiefComplaint: string,
    medicalHistory: string,
    medications: string,
    socialHistory: string,
    personality: string,
    physicalFindings: string,
    additionalSymptoms: string,
    revelationLevel: string,
    stayInCharacter: bool,
    avoidMedicalJargon: bool,
    provideFeedback: bool,
    customInstructions: string)

  const DefaultStructuredPrompt := StructuredPrompt("", "", "", "", "", "", "", "", "moderate", true, true, true, "")

  /** The eight profile and clinical fields, in the order the generator emits them. */
  function ProfileFields(p: StructuredPrompt): seq<string> {
    [p.demographics, p.chiefComplaint, p.medicalHistory, p.medications,
     p.socialHistory, p.personality, p.physicalFindings, p.additionalSymptoms]
  }

  /** Every free-text field, the custom instructions included. */
  function TextFields(p: StructuredPrompt): seq<string> {
    ProfileFields(p) + [p.customInstructions]
  }

  // ---------------------------------------------------------------------
  // generatePrompt

  /** A bold label `**name:**`, a separator, then the value. */
  function Labelled(name: string, sep: string, value: string): string {
    "**" + name + ":**" + sep + value
  }

  /** The section for profile field `i` holding `v`. */
  function ProfileSection(i: nat, v: string): string
    requires i < 8
  {
    match i
    case 0 => Labelled("Demographics", " ", v)
    case 1 => Labelled("Chief Complaint", " \"", v) + "\""
    case 2 => Labelled("Medical History", " ", v)
    case 3 => Labelled("Current Medications", " ", v)
    case 4 => Labelled("Social History", " ", v)
    case 5 => Labelled("Personality", " ", v)
    case 6 => "\n" + Labelled("Physical/Neurological Findings", "\n", v)
    case 7 => Labelled("Additional Symptoms", "\n", v)
  }

  /** The profile sections pushed for fields `i..`: one per non-empty field. */
  function ProfileSectionsFrom(fs: seq<string>, i: nat): seq<string>
    requires |fs| == 8 && i <= 8
    decreases 8 - i
  {
    if i == 8 then []
    else (if fs[i] != "" then [ProfileSection(i, fs[i])] else []) + ProfileSectionsFrom(fs, i + 1)
  }

  function ProfileSections(p: StructuredPrompt): seq<string> {
    ProfileSectionsFrom(ProfileFields(p), 0)
  }

  /** How many of `fs` are non-empty. */
  function CountNonEmpty(fs: seq<string>): nat {
    if fs == [] then 0 else (if fs[0] != "" then 1 else 0) + CountNonEmpty(fs[1..])
  }

  // The behaviour directives, each written as its words joined by single
  // spaces so that proofs can reason about the letters one word at a time.

  function Sentence(words: seq<string>): string {
    Join(words, " ")
  }

  function Sentences(paragraphs: seq<seq<string>>): (r: seq<string>)
    ensures |r| == |paragraphs|
  {
    seq(|paragraphs|, i requires 0 <= i < |paragraphs| => Sentence(paragraphs[i]))
  }

  const ForthcomingWords: seq<string> :=
    ["Provide", "detailed", "information", "readily", "when", "asked.", "Be", "open", "and",
     "communicative", "about", "symptoms", "and", "concerns."]

  const ReservedWords: seq<string> :=
    ["Only", "reveal", "information", "when", "directly", "asked", "specific", "questions.",
     "Provide", "brief,", "minimal", "responses", "initially.", "Require", "follow-up",
     "questions", "to", "elaborate", "on", "symptoms."]

  const ModerateWords: seq<string> :=
    ["Provide", "concise", "responses", "initially.", "Offer", "more", "details", "when", "asked",
     "follow-up", "questions.", "Balance", "between", "being", "helpful", "and", "realistic."]

  const StayInCharacterWords: seq<string> :=
    ["Stay", "in", "character", "at", "all", "times", "throughout", "the", "encounter."]
  const RespondAsPatientWords: seq<string> :=
    ["Respond", "only", "as", "the", "patient", "would,", "not", "as", "a", "medical", "professional."]
  const StayWords: seq<seq<string>> := [StayInCharacterWords, RespondAsPatientWords]

  const AvoidJargonWords: seq<string> :=
    ["Avoid", "using", "medical", "jargon", "unless", "it's", "plausible", "the", "patient", "has",
     "been", "told", "it", "by", "a", "doctor."]
  const ExpressConfusionWords: seq<string> :=
    ["Express", "confusion", "if", "asked", "about", "technical", "medical", "terms", "you",
     "wouldn't", "know."]
  const AskToExplainWords: seq<string> :=
    ["Ask", "the", "student", "to", "explain", "or", "clarify", "medical", "terms", "you", "don't",
     "understand."]
  const JargonWords: seq<seq<string>> := [AvoidJargonWords, ExpressConfusionWords, AskToExplainWords]

  const ConsistentWords: seq<string> :=
    ["Be", "consistent", "with", "your", "medical", "history", "and", "symptoms."]
  const UnknownSymptomsWords: seq<string> :=
    ["If", "asked", "about", "symptoms", "not", "in", "your", "profile,", "politely", "indicate",
     "you", "don't", "have", "those", "symptoms."]
  const ConversationalWords: seq<string> :=
    ["Keep", "responses", "conversational", "and", "natural", "(1-3", "sentences", "typically)."]
  const UniversalWords: seq<seq<string>> := [ConsistentWords, UnknownSymptomsWords, ConversationalWords]

  const FeedbackHeadingWords: seq<string> := ["\n**End", "of", "Encounter", "Feedback:**"]
  const FeedbackRequestWords: seq<string> :=
    ["If", "the", "user", "indicates", "the", "encounter", "is", "over,", "provide", "constructive",
     "feedback", "on:"]
  const FeedbackTopicWords: seq<seq<string>> :=
    [["-", "History", "taking"],
     ["-", "Communication", "and", "interpersonal", "skills"],
     ["-", "Clinical", "reasoning", "and", "decision", "making"],
     ["-", "Explanation", "and", "patient", "education"],
     ["-", "Professionalism"],
     ["-", "Overall", "rating", "out", "of", "10"]]
  const FeedbackWords: seq<seq<string>> := [FeedbackHeadingWords, FeedbackRequestWords] + FeedbackTopicWords

  /** The words of the revelation paragraph chosen for `level`. */
  function RevelationWords(level: string): seq<string> {
    if level == "forthcoming" then ForthcomingWords
    else if level == "reserved" then ReservedWords
    else ModerateWords
  }

  function RevelationDirective(level: string): string {
    Sentence(RevelationWords(level))
  }

  /** An optional block of paragraphs, pushed only when its setting is on. */
  function Block(on: bool, paragraphs: seq<seq<string>>): seq<seq<string>> {
    if on then paragraphs else []
  }

  /** The directives pushed onto the behaviour list, as word lists. */
  function DirectiveWords(p: StructuredPrompt): seq<seq<string>> {
    [RevelationWords(p.revelationLevel)]
    + Block(p.stayInCharacter, StayWords)
    + Block(p.avoidMedicalJargon, JargonWords)
    + UniversalWords
    + Block(p.provideFeedback, FeedbackWords)
  }

  /** The behaviour list. */
  function Directives(p: StructuredPrompt): seq<string> {
    Sentences(DirectiveWords(p))
  }

  lemma SentencesConcat(a: seq<seq<string>>, b: seq<seq<string>>)
    ensures Sentences(a + b) == Sentences(a) + Sentences(b)
  {
  }

  /** Where each block of paragraphs lands in the sentences of
      `[first] + b + c + d + e`. */
  lemma {:induction false} SentencesBlocks(first: seq<string>, b: seq<seq<string>>, c: seq<seq<string>>,
                                          d: seq<seq<string>>, e: seq<seq<string>>)
    ensures var r := Sentences([first] + b + c + d + e);
      var u := 1 + |b| + |c|;
      |r| == u + |d| + |e|
      && r[0] == Sentence(first)
      && r[1..1 + |b|] == Sentences(b)
      && r[1 + |b|..u] == Sentences(c)
      && r[u..u + |d|] == Sentences(d)
      && r[u + |d|..] == Sentences(e)
  {
    SentencesConcat([first] + b + c + d, e);
    SentencesConcat([first] + b + c, d);
    SentencesConcat([first] + b, c);
    SentencesConcat([first], b);
  }

  lemma DirectiveBlockSizes()
    ensures |StayWords| == 2 && |JargonWords| == 3 && |UniversalWords| == 3 && |FeedbackWords| == 8
  {
  }

  /** Where the revelation paragraph, the optional blocks and the three
      universal directives land in the behaviour list. */
  lemma BlocksLayout(first: seq<string>, stay: bool, jargon: bool, feedback: bool,
                     st: seq<seq<string>>, ja: seq<seq<string>>, un: seq<seq<string>>, fe: seq<seq<string>>)
    requires |un| == 3
    ensures var r := Sentences([first] + Block(stay, st) + Block(jargon, ja) + un + Block(feedback, fe));
      var u := 1 + (if stay then |st| else 0) + (if jargon then |ja| else 0);
      |r| == u + 3 + (if feedback then |fe| else 0)
      && r[0] == Sentence(first)
      && r[u..u + 3] == Sentences(un)
      && (stay ==> r[1..1 + |st|] == Sentences(st))
      && (jargon ==> r[u - |ja|..u] == Sentences(ja))
      && (feedback ==> r[u + 3..] == Sentences(fe))
  {
    var b := Block(stay, st);
    var c := Block(jargon, ja);
    var e := Block(feedback, fe);
    SentencesBlocks(first, b, c, un, e);
  }

  /** The behaviour list holds the revelation paragraph first and the three
      universal directives after the optional blocks, and has
      1 + 2·stay + 3·jargon + 3 + 8·feedback items, so it is never empty. */
  lemma DirectivesLayout(p: StructuredPrompt)
    ensures var r := Directives(p);
      var u := 1 + (if p.stayInCharacter then 2 else 0) + (if p.avoidMedicalJargon then 3 else 0);
      |r| == u + 3 + (if p.provideFeedback then 8 else 0)
      && r[0] == RevelationDirective(p.revelationLevel)
      && r[u..u + 3] == Sentences(UniversalWords)
  {
    DirectiveBlockSizes();
    BlocksLayout(RevelationWords(p.revelationLevel), p.stayInCharacter, p.avoidMedicalJargon, p.provideFeedback,
                 StayWords, JargonWords, UniversalWords, FeedbackWords);
  }

  /** The in-character pair follows the revelation paragraph, the jargon
      triple comes just before the universal directives, and the feedback
      block closes the list, each exactly when its flag is set. */
  lemma DirectivesOptionalBlocks(p: StructuredPrompt)
    ensures var r := Directives(p);
      var u := 1 + (if p.stayInCharacter then 2 else 0) + (if p.avoidMedicalJargon then 3 else 0);
      |r| >= u + 3
      && (p.stayInCharacter ==> r[1..3] == Sentences(StayWords))
      && (p.avoidMedicalJargon ==> r[u - 3..u] == Sentences(JargonWords))
      && (p.provideFeedback ==> r[u + 3..] == Sentences(FeedbackWords))
      && (!p.provideFeedback ==> |r| == u + 3)
  {
    DirectiveBlockSizes();
    BlocksLayout(RevelationWords(p.revelationLevel), p.stayInCharacter, p.avoidMedicalJargon, p.provideFeedback,
                 StayWords, JargonWords, UniversalWords, FeedbackWords);
  }

  /** Item `k` of the list, numbered from 1. */
  function Numbered(items: seq<string>): (r: seq<string>)
    ensures |r| == |items|
  {
    seq(|items|, k requires 0 <= k < |items| => NatToString(k + 1) + ". " + items[k])
  }

  function InstructionsSection(items: seq<string>): string {
    "\n" + Labelled("Instructions for Interaction", "\n", Join(Numbered(items), "\n"))
  }

  function CustomSection(v: string): string {
    "\n" + Labelled("Additional Instructions", "\n", v)
  }

  function CustomSections(custom: string): (r: seq<string>)
    ensures |r| <= 1
  {
    if custom != "" then [CustomSection(custom)] else []
  }

  /** The sections pushed in order: the profile sections, the instruction
      section when there are items, and the custom section when there is
      custom text. */
  function SectionsOf(profile: seq<string>, items: seq<string>, custom: string): seq<string> {
    profile
    + (if |items| > 0 then [InstructionsSection(items)] else [])
    + CustomSections(custom)
  }

  function Sections(p: StructuredPrompt): seq<string> {
    SectionsOf(ProfileSections(p), Directives(p), p.customInstructions)
  }

  /** `generatePrompt`: the profile sections, each followed by a blank line,
      then the instruction section, which is always there, then the custom
      section, after a blank line, only when there is custom text. */
  function Generate(p: StructuredPrompt): (r: string)
    ensures r == JoinedBefore(ProfileSections(p), "\n\n")
      + InstructionsSection(Directives(p))
      + JoinedAfter(CustomSections(p.customInstructions), "\n\n")
  {
    DirectivesLayout(p);
    SectionsOfLayout(ProfileSections(p), Directives(p), p.customInstructions);
    JoinThree(ProfileSections(p), InstructionsSection(Directives(p)), CustomSections(p.customInstructions), "\n\n");
    Join(Sections(p), "\n\n")
  }

  // ---------------------------------------------------------------------
  // parsePrompt

  /** `pat` occurs at `i` in `s`, ignoring ASCII case. */
  predicate MatchesAt(s: string, pat: string, i: int) {
    0 <= i && i + |pat| <= |s| && Lower(s[i..i + |pat|]) == Lower(pat)
  }

  /** The leftmost case-insensitive occurrence of `pat` at or after `from`. */
  function FindFrom(s: string, pat: string, from: nat): (r: Option<nat>)
    ensures r.Some? ==> from <= r.value && MatchesAt(s, pat, r.value)
                        && forall q | from <= q < r.value :: !MatchesAt(s, pat, q)
    ensures r.None? ==> forall q | from <= q :: !MatchesAt(s, pat, q)
    decreases |s| - from
  {
    if from + |pat| > |s| then None
    else if MatchesAt(s, pat, from) then Some(from)
    else FindFrom(s, pat, from + 1)
  }

  /** The end of the whitespace run starting at `j` (what a greedy `\s*` takes). */
  function SpaceRunEnd(s: string, j: nat): (k: nat)
    requires j <= |s|
    ensures j <= k <= |s| && (k == |s| || !IsSpace(s[k]))
    ensures forall i | j <= i < k :: IsSpace(s[i])
    decreases |s| - j
  {
    if j < |s| && IsSpace(s[j]) then SpaceRunEnd(s, j + 1) else j
  }

  /** The lookahead `(?=\n\*\*|\n\n|$)` holds at `e`. */
  predicate StopsAt(s: string, e: int) {
    e == |s|
    || (0 <= e && e + 1 < |s| && s[e] == '\n'
        && (s[e + 1] == '\n' || (e + 2 < |s| && s[e + 1] == '*' && s[e + 2] == '*')))
  }

  /** The first position at or after `e` where the lookahead holds (what the
      lazy `[\s\S]+?` stops at). */
  function NextStop(s: string, e: nat): (r: nat)
    requires e <= |s|
    ensures e <= r <= |s| && StopsAt(s, r)
    ensures forall q | e <= q < r :: !StopsAt(s, q)
    decreases |s| - e
  {
    if StopsAt(s, e) then e else NextStop(s, e + 1)
  }

  predicate IsQuote(c: char) { c == '"' || c == '\'' }

  /** `replace(/^["']|["']$/g, '')`: one leading and one trailing quote go. */
  function StripQuotes(s: string): (r: string)
    ensures exists a, b | 0 <= a <= b <= |s| :: r == s[a..b]
    ensures |s| >= 2 && IsQuote(s[0]) && IsQuote(s[|s| - 1]) ==> r == s[1..|s| - 1]
    ensures s != [] && !IsQuote(s[0]) && !IsQuote(s[|s| - 1]) ==> r == s
  {
    var a := if s != [] && IsQuote(s[0]) then s[1..] else s;
    var r := if a != [] && IsQuote(a[|a| - 1]) then a[..|a| - 1] else a;
    assert r == s[|s| - |a|..|s| - |a| + |r|];
    r
  }

  /** The captured group after `trim` and quote stripping. */
  function Clean(group: string): string {
    StripQuotes(Trim(group))
  }

  function LabelPattern(name: string): string {
    "**" + name + ":**"
  }

  /** `extractAfterLabel`: the regex
      `\*\*LABEL:\*\*\s*([\s\S]+?)(?=\n\*\*|\n\n|$)` with the `i` flag, then
      `trim` and quote stripping, or `''` when nothing matches. Only the
      leftmost occurrence of the label can start a match; after it, `\s*`
      takes the whole whitespace run unless that run reaches the end, in which
      case it gives back one character for the group. */
  function ExtractAfterLabel(s: string, name: string): (r: string)
    ensures FindFrom(s, LabelPattern(name), 0).None? ==> r == ""
  {
    var pat := LabelPattern(name);
    match FindFrom(s, pat, 0)
    case None => ""
    case Some(p) =>
      var j := p + |pat|;
      var k := SpaceRunEnd(s, j);
      if k < |s| then Clean(s[k..NextStop(s, k + 1)])
      else if j < |s| then Clean(s[|s| - 1..])
      else ""
  }

  /** `a || b` on strings. */
  function OrElse(a: string, b: string): string {
    if a != "" then a else b
  }

  /** The largest `n` in `[j, m)` with a line break at `n` and at least one
      character after it (where the greedy `\s*` of the custom-instruction
      regex backs off to, so that `\n` and `[\s\S]+` can follow). */
  function LastBreak(s: string, j: nat, m: nat): (r: Option<nat>)
    requires m <= |s|
    ensures r.Some? ==> j <= r.value < m && s[r.value] == '\n' && r.value + 1 < |s|
                        && forall n | r.value < n < m :: !(s[n] == '\n' && n + 1 < |s|)
    ensures r.None? ==> forall n | j <= n < m :: !(s[n] == '\n' && n + 1 < |s|)
    decreases m
  {
    if m <= j then None
    else if s[m - 1] == '\n' && m < |s| then Some(m - 1)
    else LastBreak(s, j, m - 1)
  }

  const CustomLabel := "Additional Instructions"

  /** `v` is what follows some line break at or after `from`, trimmed. */
  predicate TrimmedAfterBreak(s: string, from: nat, v: string) {
    exists n | from <= n < |s| :: s[n] == '\n' && v == Trim(s[n + 1..])
  }

  /** The regex `\*\*Additional Instructions:\*\*\s*\n([\s\S]+)$` with the
      `i` flag, tried at each occurrence of the label from `from` on; the
      group, trimmed. No label, no custom text; custom text, when found, is
      the trimmed rest of the prompt after a line break. */
  function CustomFrom(s: string, from: nat): (r: Option<string>)
    ensures FindFrom(s, LabelPattern(CustomLabel), from).None? ==> r.None?
    ensures r.Some? ==> TrimmedAfterBreak(s, from, r.value)
  {
    match BreakAfterLabel(s, LabelPattern(CustomLabel), from)
    case Some(n) => TrimmedAfterThisBreak(s, from, n); Some(Trim(s[n + 1..]))
    case None => None
  }

  lemma TrimmedAfterThisBreak(s: string, from: nat, n: nat)
    requires from <= n < |s| && s[n] == '\n'
    ensures TrimmedAfterBreak(s, from, Trim(s[n + 1..]))
  {
  }

  /** Where the group starts: the first occurrence of `pat` from `from` on
      that is followed, past optional whitespace, by a line break with
      something after it, and the last such break in that whitespace. */
  function BreakAfterLabel(s: string, pat: string, from: nat): (r: Option<nat>)
    ensures FindFrom(s, pat, from).None? ==> r.None?
    ensures r.Some? ==> from <= r.value < |s| - 1 && s[r.value] == '\n'
    decreases |s| - from
  {
    match FindFrom(s, pat, from)
    case None => None
    case Some(p) =>
      var k := SpaceRunEnd(s, p + |pat|);
      match LastBreak(s, p + |pat|, k)
      case Some(n) => Some(n)
      case None => BreakAfterLabel(s, pat, p + 1)
  }

  /** The reserved cue, tested first: "brief" and "minimal", or the reserved
      paragraph's opening phrase. */
  predicate ReservedCue(lower: string) {
    (Contains(lower, "brief") && Contains(lower, "minimal"))
    || Contains(lower, "only reveal information when directly asked")
  }

  predicate ForthcomingCue(lower: string) {
    Contains(lower, "detailed information readily") || Contains(lower, "open and communicative")
  }

  function DetectRevelation(lower: string): (r: string)
    ensures r in {"forthcoming", "moderate", "reserved"}
    ensures r == "reserved" <==> ReservedCue(lower)
    ensures r == "forthcoming" <==> !ReservedCue(lower) && ForthcomingCue(lower)
  {
    if ReservedCue(lower) then "reserved"
    else if ForthcomingCue(lower) then "forthcoming"
    else "moderate"
  }

  predicate StayCue(lower: string) {
    Contains(lower, "stay in character") || Contains(lower, "maintain character")
  }

  predicate JargonCue(lower: string) {
    Contains(lower, "avoid") && Contains(lower, "jargon")
  }

  predicate FeedbackCue(lower: string) {
    Contains(lower, "feedback") || Contains(lower, "rating")
  }

  /** `parsePrompt`: total; starts from the defaults and overwrites every
      field. The level is always one of the three, and without a custom
      instructions match the custom text keeps its default, empty. */
  function Parse(s: string): (r: StructuredPrompt)
    ensures r.revelationLevel in {"forthcoming", "moderate", "reserved"}
    ensures CustomFrom(s, 0).None? ==> r.customInstructions == ""
  {
    var lower := Lower(s);
    StructuredPrompt(
      ExtractAfterLabel(s, "Demographics"),
      ExtractAfterLabel(s, "Chief Complaint"),
      ExtractAfterLabel(s, "Medical History"),
      OrElse(ExtractAfterLabel(s, "Current Medications"), ExtractAfterLabel(s, "Medications")),
      ExtractAfterLabel(s, "Social History"),
      ExtractAfterLabel(s, "Personality"),
      OrElse(ExtractAfterLabel(s, "Physical/Neurological Findings"), ExtractAfterLabel(s, "Neurological Findings")),
      OrElse(ExtractAfterLabel(s, "Additional Symptoms"), ExtractAfterLabel(s, "Non-Motor Symptoms")),
      DetectRevelation(lower),
      StayCue(lower),
      JargonCue(lower),
      FeedbackCue(lower),
      match CustomFrom(s, 0) case Some(v) => v case None => DefaultStructuredPrompt.customInstructions)
  }

  // ---------------------------------------------------------------------
  // properties of the generator

  lemma CountNonEmptyStep(fs: seq<string>, i: nat, k: nat)
    requires i < k <= |fs|
    ensures CountNonEmpty(fs[i..k]) == (if fs[i] != "" then 1 else 0) + CountNonEmpty(fs[i + 1..k])
  {
    assert fs[i..k][1..] == fs[i + 1..k];
  }

  lemma {:induction false} ProfileSectionsFromPositions(fs: seq<string>, i: nat)
    requires |fs| == 8 && i <= 8
    ensures var r := ProfileSectionsFrom(fs, i);
      |r| == CountNonEmpty(fs[i..])
      && forall k | i <= k < 8 && fs[k] != "" :: CountNonEmpty(fs[i..k]) < |r|
           && r[CountNonEmpty(fs[i..k])] == ProfileSection(k, fs[k])
    decreases 8 - i
  {
    if i < 8 {
      ProfileSectionsFromPositions(fs, i + 1);
      var head := if fs[i] != "" then [ProfileSection(i, fs[i])] else [];
      var rest := ProfileSectionsFrom(fs, i + 1);
      var r := ProfileSectionsFrom(fs, i);
      assert r == head + rest;
      CountNonEmptyStep(fs, i, 8);
      assert fs[i..8] == fs[i..] && fs[i + 1..8] == fs[i + 1..];
      forall k | i <= k < 8 && fs[k] != ""
        ensures CountNonEmpty(fs[i..k]) < |r| && r[CountNonEmpty(fs[i..k])] == ProfileSection(k, fs[k])
      {
        if k == i {
          assert fs[i..k] == [];
        } else {
          CountNonEmptyStep(fs, i, k);
        }
      }
    }
  }

  /** A profile section is emitted exactly for each non-empty field, in the
      fixed field order: field k's section sits after one section for each
      non-empty field before it, and there are no other sections. */
  lemma ProfileSectionsPositions(p: StructuredPrompt)
    ensures var fs := ProfileFields(p); var r := ProfileSections(p);
      |r| == CountNonEmpty(fs)
      && forall k | 0 <= k < 8 && fs[k] != "" :: CountNonEmpty(fs[..k]) < |r|
           && r[CountNonEmpty(fs[..k])] == ProfileSection(k, fs[k])
  {
    var fs := ProfileFields(p);
    ProfileSectionsFromPositions(fs, 0);
    assert fs[0..] == fs;
    forall k | 0 <= k < 8 ensures fs[0..k] == fs[..k] { }
  }

  lemma SectionsOfLayout(profile: seq<string>, items: seq<string>, custom: string)
    requires |items| > 0
    ensures var ss := SectionsOf(profile, items, custom); var n := |profile|;
      |ss| == n + 1 + (if custom != "" then 1 else 0)
      && ss[..n] == profile
      && ss[n] == InstructionsSection(items)
      && (custom != "" ==> ss[n + 1] == CustomSection(custom))
  {
  }

  /** The instruction section is always emitted, after the profile
      sections; the custom section is emitted last, and only when the custom
      instructions are non-empty. The sections are separated by blank lines. */
  lemma GenerateLayout(p: StructuredPrompt)
    ensures var ss := Sections(p); var n := |ProfileSections(p)|;
      |ss| == n + 1 + (if p.customInstructions != "" then 1 else 0)
      && ss[..n] == ProfileSections(p)
      && ss[n] == InstructionsSection(Directives(p))
      && (p.customInstructions != "" ==> ss[n + 1] == CustomSection(p.customInstructions))
  {
    DirectivesLayout(p);
    SectionsOfLayout(ProfileSections(p), Directives(p), p.customInstructions);
  }

  /** The number of leading decimal digits of `s`. */
  function LeadingDigits(s: string): (n: nat)
    ensures n <= |s| && (n == |s| || !IsDigit(s[n]))
    ensures forall i | 0 <= i < n :: IsDigit(s[i])
  {
    if s != [] && IsDigit(s[0]) then 1 + LeadingDigits(s[1..]) else 0
  }

  lemma {:induction false} LeadingDigitsOfNumeral(d: string, rest: string)
    requires forall i | 0 <= i < |d| :: IsDigit(d[i])
    requires rest == [] || !IsDigit(rest[0])
    ensures LeadingDigits(d + rest) == |d|
  {
    if d != [] {
      assert (d + rest)[1..] == d[1..] + rest;
      LeadingDigitsOfNumeral(d[1..], rest);
    }
  }

  /** Each numbered line reads back as its 1-based number, ". ", and the item. */
  lemma NumberedLineReadBack(items: seq<string>, k: nat)
    requires k < |items|
    ensures var line := Numbered(items)[k]; var d := LeadingDigits(line);
      d + 2 <= |line| && DigitsValue(line[..d]) == k + 1
      && line[d..d + 2] == ". " && line[d + 2..] == items[k]
  {
    var num := NatToString(k + 1);
    var line := Numbered(items)[k];
    LeadingDigitsOfNumeral(num, ". " + items[k]);
    assert line == num + (". " + items[k]);
    assert line[..|num|] == num;
    DigitsValueOfNatToString(k + 1);
  }

  // ---------------------------------------------------------------------
  // properties of the parser

  /** A pattern that starts with `*` cannot match text without one. */
  lemma NoStarNoMatch(s: string, pat: string, from: nat)
    requires pat != [] && pat[0] == '*'
    requires forall i | 0 <= i < |s| :: s[i] != '*'
    ensures FindFrom(s, pat, from).None?
  {
    forall q | from <= q && q + |pat| <= |s| ensures !MatchesAt(s, pat, q) {
      assert LowerChar(s[q]) != '*';
      assert Lower(s[q..q + |pat|])[0] == LowerChar(s[q]);
      assert Lower(pat)[0] == '*';
    }
  }

  lemma NoLabelNoValue(s: string, name: string)
    requires forall i | 0 <= i < |s| :: s[i] != '*'
    ensures ExtractAfterLabel(s, name) == ""
  {
    NoStarNoMatch(s, LabelPattern(name), 0);
  }

  /** Text without any bold label parses to empty profile fields and empty
      custom instructions: every field falls back to its default. */
  lemma ParseWithoutLabels(s: string)
    requires forall i | 0 <= i < |s| :: s[i] != '*'
    ensures var r := Parse(s);
      forall k | 0 <= k < |TextFields(r)| :: TextFields(r)[k] == ""
  {
    NoLabelNoValue(s, "Demographics");
    NoLabelNoValue(s, "Chief Complaint");
    NoLabelNoValue(s, "Medical History");
    NoLabelNoValue(s, "Current Medications");
    NoLabelNoValue(s, "Medications");
    NoLabelNoValue(s, "Social History");
    NoLabelNoValue(s, "Personality");
    NoLabelNoValue(s, "Physical/Neurological Findings");
    NoLabelNoValue(s, "Neurological Findings");
    NoLabelNoValue(s, "Additional Symptoms");
    NoLabelNoValue(s, "Non-Motor Symptoms");
    NoStarNoMatch(s, LabelPattern(CustomLabel), 0);
  }
}
