/** The response selector of the virtual classroom: given a teacher utterance
    and the selected subject it decides whether students react at all, finds
    the curriculum keywords the utterance mentions, picks the responding
    personas and one question template for each.

    `Math.random` is replaced by explicit draws, each a real in [0, 1): one
    inclusion draw per persona, one draw for the number of responses and one
    template draw per response slot. */
module StudentSimulator {
  import opened Text
  import opened SimulatorTables

  /** One student message: the question and who asks it. */
  datatype Response = Response(content: string, studentName: string, avatar: string, voiceType: string)

  predicate IsDraw(r: real) {
    0.0 <= r < 1.0
  }

  // ---------------------------------------------------------------------------
  // The two filters

  /** The utterance as both filters see it: lower-cased, then trimmed. */
  function Normalize(input: string): string {
    Trim(Lower(input))
  }

  /** A greeting or acknowledgement: the normalised utterance is one of the
      listed greetings, or contains one while shorter than 20 characters. */
  predicate IsBasicInteraction(normalized: string) {
    exists g | g in Greetings ::
      normalized == g || (Contains(normalized, g) && |normalized| < GreetingLengthLimit)
  }

  /** The first filter: greetings and utterances shorter than 10 characters. */
  predicate IsTrivial(input: string) {
    IsBasicInteraction(Normalize(input)) || |Normalize(input)| < MinUtteranceLength
  }

  /** Whether students respond at all: the utterance passes the first filter
      and either matches a keyword of the subject or is at least 30 characters long. */
  predicate Responds(curriculum: map<string, seq<Chapter>>, input: string, subject: string) {
    !IsTrivial(input) && (RelevantTopics(curriculum, input, subject) != [] || |Normalize(input)| >= TopicFreeMinLength)
  }

  // ---------------------------------------------------------------------------
  // Topic matching

  /** The words of `words` whose lower-cased form occurs in `lowerInput`, in order. */
  function MatchList(lowerInput: string, words: seq<string>): seq<string> {
    if words == [] then []
    else
      var w := words[|words| - 1];
      MatchList(lowerInput, words[..|words| - 1]) + (if Contains(lowerInput, Lower(w)) then [w] else [])
  }

  /** One chapter's matches: its concepts first, then its topics. */
  function MatchChapter(lowerInput: string, ch: Chapter): seq<string> {
    MatchList(lowerInput, ch.concepts) + MatchList(lowerInput, ch.topics)
  }

  /** The matches of the chapters, chapter by chapter. */
  function MatchChapters(lowerInput: string, chs: seq<Chapter>): seq<string> {
    if chs == [] then []
    else MatchChapters(lowerInput, chs[..|chs| - 1]) + MatchChapter(lowerInput, chs[|chs| - 1])
  }

  /** The curriculum keywords the utterance mentions; none for an unknown subject. */
  function RelevantTopics(curriculum: map<string, seq<Chapter>>, input: string, subject: string): seq<string> {
    if subject in curriculum then MatchChapters(Lower(input), curriculum[subject]) else []
  }

  /** A word is matched exactly when it is in the list and the input mentions it. */
  lemma {:induction false} MatchListMember(lowerInput: string, words: seq<string>, x: string)
    ensures x in MatchList(lowerInput, words) <==> x in words && Contains(lowerInput, Lower(x))
  {
    if words != [] {
      var init := words[..|words| - 1];
      MatchListMember(lowerInput, init, x);
      assert words == init + [words[|words| - 1]];
    }
  }

  /** Matching keeps every occurrence of a mentioned word, duplicates included,
      and drops every occurrence of a word the input does not mention. */
  lemma {:induction false} MatchListCount(lowerInput: string, words: seq<string>, x: string)
    ensures multiset(MatchList(lowerInput, words))[x]
         == if Contains(lowerInput, Lower(x)) then multiset(words)[x] else 0
  {
    if words != [] {
      var init := words[..|words| - 1];
      MatchListCount(lowerInput, init, x);
      assert words == init + [words[|words| - 1]];
    }
  }

  /** Matching chapters distributes over concatenation of chapter lists. */
  lemma {:induction false} MatchChaptersAppend(lowerInput: string, a: seq<Chapter>, b: seq<Chapter>)
    ensures MatchChapters(lowerInput, a + b) == MatchChapters(lowerInput, a) + MatchChapters(lowerInput, b)
  {
    if b != [] {
      var b' := b[..|b| - 1];
      MatchChaptersAppend(lowerInput, a, b');
      assert (a + b)[..|a + b| - 1] == a + b';
    } else {
      assert a + b == a;
    }
  }

  /** A keyword is in the result exactly when some chapter lists it as a concept
      or a topic and the input mentions it. */
  lemma {:induction false} MatchChaptersMember(lowerInput: string, chs: seq<Chapter>, x: string)
    ensures x in MatchChapters(lowerInput, chs)
        <==> Contains(lowerInput, Lower(x)) && exists c :: c in chs && (x in c.concepts || x in c.topics)
  {
    if chs != [] {
      var init := chs[..|chs| - 1];
      var last := chs[|chs| - 1];
      MatchChaptersMember(lowerInput, init, x);
      MatchListMember(lowerInput, last.concepts, x);
      MatchListMember(lowerInput, last.topics, x);
      assert chs == init + [last];
      if x in MatchChapters(lowerInput, chs) && x !in MatchChapter(lowerInput, last) {
        var c :| c in init && (x in c.concepts || x in c.topics);
        assert c in chs;
      }
      if Contains(lowerInput, Lower(x)) && exists c :: c in chs && (x in c.concepts || x in c.topics) {
        var c :| c in chs && (x in c.concepts || x in c.topics);
        if c != last {
          assert c in init;
        }
      }
    }
  }

  lemma MatchedAreMentioned(lowerInput: string, chs: seq<Chapter>)
    ensures forall t :: t in MatchChapters(lowerInput, chs) ==> Contains(lowerInput, Lower(t))
  {
    forall t | t in MatchChapters(lowerInput, chs) ensures Contains(lowerInput, Lower(t)) {
      MatchChaptersMember(lowerInput, chs, t);
    }
  }

  /** Every returned keyword is a concept or topic of the subject that the
      lower-cased input mentions, and every such keyword is returned. */
  lemma RelevantTopicsMember(curriculum: map<string, seq<Chapter>>, input: string, subject: string, x: string)
    requires subject in curriculum
    ensures x in RelevantTopics(curriculum, input, subject)
        <==> Contains(Lower(input), Lower(x))
             && exists c :: c in curriculum[subject] && (x in c.concepts || x in c.topics)
  {
    MatchChaptersMember(Lower(input), curriculum[subject], x);
  }

  /** A concept of one of the chapters that the input mentions is matched. */
  lemma ConceptMatched(lowerInput: string, chs: seq<Chapter>, x: string, a: nat)
    requires a < |chs| && x in chs[a].concepts && Contains(lowerInput, Lower(x))
    ensures x in MatchChapters(lowerInput, chs)
  {
    assert chs[a] in chs;
    MatchChaptersMember(lowerInput, chs, x);
  }

  /** A keyword listed as a concept of two chapters is matched twice, once
      from each chapter, in chapter order. */
  lemma MatchedTwice(lowerInput: string, chs: seq<Chapter>, x: string, a: nat, b: nat)
    requires a < b < |chs| && x in chs[a].concepts && x in chs[b].concepts
    requires Contains(lowerInput, Lower(x))
    ensures var r := MatchChapters(lowerInput, chs);
      exists i, j :: 0 <= i < j < |r| && r[i] == x && r[j] == x
  {
    var front, back := chs[..b], chs[b..];
    assert front + back == chs;
    MatchChaptersAppend(lowerInput, front, back);
    assert front[a] == chs[a];
    ConceptMatched(lowerInput, front, x, a);
    assert back[0] == chs[b];
    ConceptMatched(lowerInput, back, x, 0);
    InBothHalves(MatchChapters(lowerInput, front), MatchChapters(lowerInput, back), x);
  }

  /** An element of both halves occurs twice in their concatenation. */
  lemma InBothHalves(f: seq<string>, g: seq<string>, x: string)
    requires x in f && x in g
    ensures var r := f + g; exists i, j :: 0 <= i < j < |r| && r[i] == x && r[j] == x
  {
    var i :| 0 <= i < |f| && f[i] == x;
    var j :| 0 <= j < |g| && g[j] == x;
    var r := f + g;
    assert r[i] == x && r[|f| + j] == x;
  }

  /** Duplicates are kept: "interference" is a concept of two physics chapters
      (oscillations and waves, optics), so an utterance that mentions it gets it
      twice. */
  lemma InterferenceMatchedTwice(input: string)
    requires Contains(Lower(input), "interference")
    ensures var r := RelevantTopics(Curriculum, input, "physics");
      exists i, j :: 0 <= i < j < |r| && r[i] == "interference" && r[j] == "interference"
  {
    PhysicsMatches(input);
    LowerOfLowercase("interference");
    InterferenceListedTwice();
    MatchedTwice(Lower(input), PhysicsChapters, "interference", 3, 7);
  }

  lemma PhysicsMatches(input: string)
    ensures RelevantTopics(Curriculum, input, "physics") == MatchChapters(Lower(input), PhysicsChapters)
  {
    InterferenceListedTwice();
  }

  // ---------------------------------------------------------------------------
  // Persona pool

  /** No two personas of the roster share a name. */
  predicate DistinctNames(roster: seq<Persona>) {
    forall k, l :: 0 <= k < l < |roster| ==> roster[k].name != roster[l].name
  }

  /** What the selector relies on in its student table: distinct names, and
      generic lines for every persona, so a pattern list is never empty. */
  predicate WellFormedRoster(roster: seq<Persona>) {
    DistinctNames(roster) && forall k :: 0 <= k < |roster| ==> roster[k].generic != []
  }

  /** The application's student table meets those requirements. */
  lemma PersonasWellFormed()
    ensures WellFormedRoster(Personas)
  {
    PersonaNamesDistinct();
    PersonaLineCounts();
  }

  /** Persona `i` joins the pool: it prefers the subject, or its draw exceeds 0.7. */
  predicate Interested(roster: seq<Persona>, subject: string, draws: seq<real>, i: nat)
    requires i < |roster| && |draws| == |roster|
  {
    roster[i].preference == subject || draws[i] > InclusionThreshold
  }

  /** The table positions of the pool among the first `n` personas, ascending. */
  function PoolIndices(roster: seq<Persona>, subject: string, draws: seq<real>, n: nat): (r: seq<nat>)
    requires n <= |roster| && |draws| == |roster|
    ensures forall k :: 0 <= k < |r| ==> r[k] < n && Interested(roster, subject, draws, r[k])
    ensures forall k, l :: 0 <= k < l < |r| ==> r[k] < r[l]
    ensures forall i :: 0 <= i < n && Interested(roster, subject, draws, i) ==> i in r
  {
    if n == 0 then []
    else PoolIndices(roster, subject, draws, n - 1)
         + (if Interested(roster, subject, draws, n - 1) then [n - 1] else [])
  }

  /** The candidate pool: the interested personas in table order. */
  function Pool(roster: seq<Persona>, subject: string, draws: seq<real>): (pool: seq<Persona>)
    requires |draws| == |roster|
    ensures forall k :: 0 <= k < |pool| ==> pool[k] in roster
  {
    var idx := PoolIndices(roster, subject, draws, |roster|);
    seq(|idx|, k requires 0 <= k < |idx| => roster[idx[k]])
  }

  /** The pool holds every persona that prefers the subject; a persona that does
      not joins it exactly when its draw exceeds 0.7. */
  lemma PoolMembership(roster: seq<Persona>, subject: string, draws: seq<real>, i: nat)
    requires |draws| == |roster| && i < |roster| && DistinctNames(roster)
    ensures roster[i] in Pool(roster, subject, draws)
        <==> roster[i].preference == subject || draws[i] > InclusionThreshold
  {
    var idx := PoolIndices(roster, subject, draws, |roster|);
    var pool := Pool(roster, subject, draws);
    if Interested(roster, subject, draws, i) {
      var k :| 0 <= k < |idx| && idx[k] == i;
      assert pool[k] == roster[i];
    }
    if roster[i] in pool {
      var k :| 0 <= k < |pool| && pool[k] == roster[i];
      assert roster[idx[k]] == roster[i];
      assert idx[k] == i;
    }
  }

  /** The pool of a roster with distinct names has distinct names: it takes
      each table position at most once. */
  lemma PoolDistinctNames(roster: seq<Persona>, subject: string, draws: seq<real>)
    requires |draws| == |roster| && DistinctNames(roster)
    ensures DistinctNames(Pool(roster, subject, draws))
  {
    var idx := PoolIndices(roster, subject, draws, |roster|);
    var pool := Pool(roster, subject, draws);
    forall k, l | 0 <= k < l < |pool| ensures pool[k].name != pool[l].name {
      assert idx[k] < idx[l];
    }
  }

  /** The pool of a well-formed roster is well formed. */
  lemma PoolWellFormed(roster: seq<Persona>, subject: string, draws: seq<real>)
    requires |draws| == |roster| && WellFormedRoster(roster)
    ensures WellFormedRoster(Pool(roster, subject, draws))
  {
    PoolDistinctNames(roster, subject, draws);
  }

  /** In the application's table every subject of the curriculum is preferred by
      at least two personas, so whatever the draws its pool has at least two. */
  lemma PoolAtLeastTwo(subject: string, draws: seq<real>)
    requires |draws| == |Personas|
    requires subject in Curriculum
    ensures |Pool(Personas, subject, draws)| >= 2
  {
    PersonaPreferences();
    if subject == "physics" {
      PoolHoldsPreferring(Personas, subject, draws, 1, 4);
    } else if subject == "chemistry" {
      PoolHoldsPreferring(Personas, subject, draws, 2, 5);
    } else {
      PoolHoldsPreferring(Personas, subject, draws, 0, 3);
    }
  }

  /** Two personas that prefer the subject put two entries in its pool. */
  lemma PoolHoldsPreferring(roster: seq<Persona>, subject: string, draws: seq<real>, a: nat, b: nat)
    requires |draws| == |roster| && a < b < |roster|
    requires roster[a].preference == subject && roster[b].preference == subject
    ensures |Pool(roster, subject, draws)| >= 2
  {
    var idx := PoolIndices(roster, subject, draws, |roster|);
    assert Interested(roster, subject, draws, a) && Interested(roster, subject, draws, b);
    var ka :| 0 <= ka < |idx| && idx[ka] == a;
    var kb :| 0 <= kb < |idx| && idx[kb] == b;
    assert ka != kb;
  }

  // ---------------------------------------------------------------------------
  // Counting and picking

  function Min(a: int, b: int): int {
    if a <= b then a else b
  }

  /** `min(floor(r * 2) + 2, poolSize, 3)`: two or three responses, fewer only
      when the pool is smaller. */
  function ResponseCount(countDraw: real, poolSize: nat): (n: nat)
    requires IsDraw(countDraw)
    ensures n <= MaxResponses && n <= poolSize
    ensures n == poolSize || n >= 2
    ensures n == 3 <==> countDraw >= 0.5 && poolSize >= 3
  {
    Min(Min((countDraw * 2.0).Floor + 2, poolSize), MaxResponses)
  }

  /** For physics, chemistry and mathematics at least two students respond to
      an utterance that passes the filters, whatever the draws. */
  lemma CurriculumSubjectsGetTwo(subject: string, draws: seq<real>, countDraw: real)
    requires |draws| == |Personas| && subject in Curriculum && IsDraw(countDraw)
    ensures ResponseCount(countDraw, |Pool(Personas, subject, draws)|) >= 2
  {
    PoolAtLeastTwo(subject, draws);
  }

  /** `Math.floor(r * n)`: the index a draw picks from a list of `n` items. */
  function PickIndex(draw: real, n: nat): (k: nat)
    requires IsDraw(draw) && n > 0
    ensures k < n
  {
    ScaledDrawBelow(draw, n);
    (draw * n as real).Floor
  }

  lemma ScaledDrawBelow(draw: real, n: nat)
    requires IsDraw(draw) && n > 0
    ensures 0.0 <= draw * n as real < n as real
  {
    assert (1.0 - draw) * n as real > 0.0;
  }

  // ---------------------------------------------------------------------------
  // Question templates

  /** Whether the topic questions apply: a keyword matched and the subject is one
      of the three that have topic questions. */
  predicate HasTopicTemplates(subject: string, topics: seq<string>) {
    topics != [] && subject in {"physics", "chemistry", "mathematics"}
  }

  /** The list one template is drawn from, in the order it is built: the topic
      questions, then the persona's generic lines, then its extra lines when the
      subject is its specialisation. */
  function ResponsePatterns(persona: Persona, subject: string, topics: seq<string>): seq<string> {
    (if topics != [] then TopicTemplates(subject, topics[0]) else [])
      + persona.generic
      + (if subject == persona.specialty then persona.extras else [])
  }

  /** The topic questions apply to the three subjects only, and each of the four
      mentions the topic it was built from. */
  lemma TopicTemplatesMention(subject: string, topic: string)
    ensures var t := TopicTemplates(subject, topic);
      && |t| == (if subject in {"physics", "chemistry", "mathematics"} then 4 else 0)
      && forall i :: 0 <= i < |t| ==> Contains(t[i], topic)
  {
    FillMentions(TopicFrames(subject), topic);
    TopicFramesCount(subject);
  }

  /** Every filled frame contains the topic it was filled with. */
  lemma FillMentions(frames: seq<(string, string)>, topic: string)
    ensures forall i :: 0 <= i < |frames| ==> Contains(Fill(frames, topic)[i], topic)
  {
    forall i | 0 <= i < |frames| ensures Contains(Fill(frames, topic)[i], topic) {
      ContainsInfix(frames[i].0, topic, frames[i].1);
    }
  }

  /** In the application's table the pattern list of persona `k` has 4 topic
      questions (when they apply), then 4 generic lines (5 for Varun), then 3
      extra lines when the subject is the persona's specialisation; the first
      four mention the first matched keyword when topic questions apply. */
  lemma PatternsShape(k: nat, subject: string, topics: seq<string>)
    requires k < |Personas|
    ensures var p := ResponsePatterns(Personas[k], subject, topics);
      && |p| == (if HasTopicTemplates(subject, topics) then 4 else 0)
                + (if Personas[k].name == "Varun" then 5 else 4)
                + (if subject == Personas[k].specialty then 3 else 0)
      && (HasTopicTemplates(subject, topics) ==> forall i :: 0 <= i < 4 ==> Contains(p[i], topics[0]))
  {
    PersonaLineCounts();
    PersonaNamesDistinct();
    if topics != [] {
      TopicTemplatesMention(subject, topics[0]);
    }
  }

  /** A response answers for `student`: it carries the persona's name, avatar
      and voice, and its text is the template the draw picks from the
      persona's pattern list. */
  predicate Answered(r: Response, student: Persona, subject: string, topics: seq<string>, draw: real) {
    var p := ResponsePatterns(student, subject, topics);
    && r.studentName == student.name && r.avatar == student.avatar && r.voiceType == student.voiceType
    && IsDraw(draw) && |p| > 0 && r.content == p[PickIndex(draw, |p|)]
  }

  /** One inner `forEach` of `findRelevantTopics`: every word of the list that
      the lower-cased input mentions is pushed onto `found`, in list order. */
  method CollectMentioned(lowerInput: string, words: seq<string>, found: seq<string>)
    returns (r: seq<string>)
    ensures r == found + MatchList(lowerInput, words)
  {
    r := found;
    for j := 0 to |words|
      invariant r == found + MatchList(lowerInput, words[..j])
    {
      if Contains(lowerInput, Lower(words[j])) {
        r := r + [words[j]];
      }
      assert words[..j + 1][..j] == words[..j];
    }
    assert words[..|words|] == words;
  }

  // ---------------------------------------------------------------------------
  // The simulator object

  /** The simulator: its curriculum and its student table, both fixed by the
      constructor. */
  class Simulator {
    const curriculum: map<string, seq<Chapter>>
    const students: seq<Persona>

    predicate Valid() {
      WellFormedRoster(students)
    }

    constructor()
      ensures curriculum == Curriculum && students == Personas
      ensures Valid()
    {
      curriculum := Curriculum;
      students := Personas;
      PersonasWellFormed();
    }

    /** `findRelevantTopics`: nothing for a subject the curriculum does not have;
        otherwise, chapter by chapter, the concepts and then the topics whose
        lower-cased form occurs in the lower-cased input. */
    method FindRelevantTopics(input: string, subject: string) returns (topics: seq<string>)
      ensures topics == RelevantTopics(curriculum, input, subject)
      ensures subject !in curriculum ==> topics == []
      ensures forall t :: t in topics ==> Contains(Lower(input), Lower(t))
    {
      if subject !in curriculum {
        return [];
      }
      var chapters := curriculum[subject];
      var inputLower := Lower(input);
      topics := [];
      var i := 0;
      while i < |chapters|
        invariant 0 <= i <= |chapters|
        invariant topics == MatchChapters(inputLower, chapters[..i])
      {
        var ch := chapters[i];
        topics := CollectMentioned(inputLower, ch.concepts, topics);
        topics := CollectMentioned(inputLower, ch.topics, topics);
        assert chapters[..i + 1][..i] == chapters[..i];
        i := i + 1;
      }
      assert chapters[..i] == chapters;
      MatchedAreMentioned(inputLower, chapters);
    }

    /** `getResponsePatterns`: pushes the topic questions, then the persona's lines. */
    method GetResponsePatterns(student: Persona, subject: string, topics: seq<string>)
      returns (patterns: seq<string>)
      ensures patterns == ResponsePatterns(student, subject, topics)
      ensures student.generic != [] ==> |patterns| > 0
      ensures HasTopicTemplates(subject, topics)
          ==> |patterns| >= 4 && forall i :: 0 <= i < 4 ==> Contains(patterns[i], topics[0])
    {
      patterns := [];
      if |topics| > 0 {
        var topic := topics[0];
        patterns := patterns + TopicTemplates(subject, topic);
        TopicTemplatesMention(subject, topic);
      }
      patterns := patterns + student.generic;
      if subject == student.specialty {
        patterns := patterns + student.extras;
      }
    }

    /** `generateStudentResponse`: one template drawn from the persona's list. */
    method GenerateStudentResponse(student: Persona, subject: string, topics: seq<string>, draw: real)
      returns (content: string)
      requires student.generic != [] && IsDraw(draw)
      ensures var p := ResponsePatterns(student, subject, topics);
        |p| > 0 && content == p[PickIndex(draw, |p|)]
      ensures content in ResponsePatterns(student, subject, topics)
    {
      var patterns := GetResponsePatterns(student, subject, topics);
      content := patterns[PickIndex(draw, |patterns|)];
    }

    /** `generateResponses`: nothing for trivial or short keyword-free input;
        otherwise one response for each of the first N pool personas, in pool order. */
    method GenerateResponses(teacherInput: string, subject: string,
                             inclusionDraws: seq<real>, countDraw: real, templateDraws: seq<real>)
      returns (responses: seq<Response>)
      requires Valid()
      requires |inclusionDraws| == |students|
      requires IsDraw(countDraw)
      requires |templateDraws| == MaxResponses && forall i :: 0 <= i < |templateDraws| ==> IsDraw(templateDraws[i])
      ensures !Responds(curriculum, teacherInput, subject) ==> responses == []
      ensures Responds(curriculum, teacherInput, subject)
          ==> |responses| == ResponseCount(countDraw, |Pool(students, subject, inclusionDraws)|)
      ensures |responses| <= MaxResponses
      ensures forall i :: 0 <= i < |responses| ==>
        && i < |Pool(students, subject, inclusionDraws)|
        && Answered(responses[i], Pool(students, subject, inclusionDraws)[i], subject,
                    RelevantTopics(curriculum, teacherInput, subject), templateDraws[i])
      ensures forall i, j :: 0 <= i < j < |responses| ==> responses[i].studentName != responses[j].studentName
    {
      responses := [];
      var inputLower := Normalize(teacherInput);
      if IsBasicInteraction(inputLower) || |inputLower| < MinUtteranceLength {
        return;
      }
      var relevantTopics := FindRelevantTopics(teacherInput, subject);
      if |relevantTopics| == 0 && |inputLower| < TopicFreeMinLength {
        return;
      }
      var interested := Pool(students, subject, inclusionDraws);
      var numResponses := ResponseCount(countDraw, |interested|);
      var selected := interested[..numResponses];
      PoolWellFormed(students, subject, inclusionDraws);
      assert WellFormedRoster(selected);
      responses := RespondEach(selected, subject, relevantTopics, templateDraws);
    }

    /** The loop of `generateResponses`: one response per chosen persona, in
        order, each answering for its persona; the chosen personas having
        distinct names, so do the responses. */
    method RespondEach(chosen: seq<Persona>, subject: string, topics: seq<string>, draws: seq<real>)
      returns (responses: seq<Response>)
      requires WellFormedRoster(chosen)
      requires |chosen| <= |draws| && forall i :: 0 <= i < |draws| ==> IsDraw(draws[i])
      ensures |responses| == |chosen|
      ensures forall k :: 0 <= k < |chosen| ==> Answered(responses[k], chosen[k], subject, topics, draws[k])
      ensures forall i, j :: 0 <= i < j < |responses| ==> responses[i].studentName != responses[j].studentName
    {
      responses := [];
      for i := 0 to |chosen|
        invariant |responses| == i
        invariant forall k :: 0 <= k < i ==> Answered(responses[k], chosen[k], subject, topics, draws[k])
      {
        var student := chosen[i];
        var content := GenerateStudentResponse(student, subject, topics, draws[i]);
        responses := responses + [Response(content, student.name, student.avatar, student.voiceType)];
      }
    }
  }
}
