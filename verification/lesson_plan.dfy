/** The lesson planner: the teacher picks a subject, one of its chapters, a
    topic of that chapter and a session length, and starting hands exactly
    that choice to the teaching session. */
module LessonPlan {

  /** A subject's display name and its chapters, from chapter key to
      chapter name. */
  datatype SubjectInfo = SubjectInfo(name: string, chapters: map<string, string>)

  /** The subjects and chapters on offer, by key. */
  const SubjectTable: map<string, SubjectInfo> := map[
    "physics" := SubjectInfo("Physics", map[
      "general" := "General Physics",
      "mechanics" := "Mechanics",
      "properties_matter_thermodynamics" := "Properties of Matter and Thermodynamics",
      "oscillations_waves" := "Oscillations and Waves",
      "electrostatics_current" := "Electrostatics & Current Electricity",
      "magnetism_induction" := "Magnetism & Electromagnetic Induction",
      "electromagnetic_waves" := "Electromagnetic Waves",
      "optics" := "Optics",
      "modern_physics" := "Modern Physics"]),
    "chemistry" := SubjectInfo("Chemistry", map[
      "physical_chemistry" := "Physical Chemistry",
      "inorganic_chemistry" := "Inorganic Chemistry",
      "organic_chemistry" := "Organic Chemistry"]),
    "mathematics" := SubjectInfo("Mathematics", map[
      "algebra" := "Algebra",
      "trigonometry" := "Trigonometry",
      "calculus" := "Calculus",
      "coordinate_geometry" := "Coordinate Geometry",
      "vector_algebra" := "Vector Algebra",
      "probability_statistics" := "Probability & Statistics",
      "mathematical_reasoning" := "Mathematical Reasoning"])
  ]

  const InitialSubject: string := "physics"
  const InitialDuration: nat := 30
  const ChapterAlert: string := "Please select a chapter before starting to teach"
  const TopicAlert: string := "Please select a specific topic before starting to teach"

  /** No subject has a chapter with an empty key, so an empty selection never
      names a chapter. */
  predicate NoEmptyChapterKey(subjects: map<string, SubjectInfo>) {
    forall k :: k in subjects ==> "" !in subjects[k].chapters
  }

  /** Three subjects, physics among them; no chapter key is empty. */
  lemma SubjectTableShape()
    ensures SubjectTable.Keys == {"physics", "chemistry", "mathematics"}
    ensures NoEmptyChapterKey(SubjectTable)
  {
  }

  /** What the teaching session receives on navigation. */
  datatype TeachingState = TeachingState(
    subject: string, chapter: string, subChapter: string, duration: nat,
    subjectName: string, chapterName: string)

  /** The result of pressing start: an alert, or a navigation. */
  datatype StartOutcome = Alert(message: string) | Navigate(state: TeachingState)

  /** The button is disabled while the chapter or the topic is empty. */
  predicate StartDisabled(chapter: string, subChapter: string) {
    chapter == [] || subChapter == []
  }

  /** The planner's selection state. */
  class Planner {
    const subjects: map<string, SubjectInfo>
    var subject: string
    var chapter: string
    var subChapter: string
    var duration: nat

    /** The selected subject is on offer, and a selected chapter belongs to it. */
    predicate Valid()
      reads this
    {
      && NoEmptyChapterKey(subjects)
      && subject in subjects
      && (chapter != [] ==> chapter in subjects[subject].chapters)
    }

    /** Physics, nothing else chosen, 30 minutes. */
    constructor()
      ensures subjects == SubjectTable
      ensures subject == InitialSubject && chapter == [] && subChapter == [] && duration == InitialDuration
      ensures Valid()
    {
      subjects := SubjectTable;
      subject := InitialSubject;
      chapter := [];
      subChapter := [];
      duration := InitialDuration;
      SubjectTableShape();
    }

    /** A click on a subject: it becomes the subject, and the chapter and topic
        are cleared, so starting is disabled again. */
    method SelectSubject(key: string)
      requires Valid() && key in subjects
      modifies this
      ensures subject == key && chapter == [] && subChapter == [] && duration == old(duration)
      ensures StartDisabled(chapter, subChapter)
      ensures Valid()
    {
      subject := key;
      chapter := [];
      subChapter := [];
    }

    /** A click on a chapter of the current subject: it becomes the chapter,
        the topic is cleared and the subject stays. */
    method SelectChapter(key: string)
      requires Valid() && key in subjects[subject].chapters
      modifies this
      ensures subject == old(subject) && chapter == key && subChapter == [] && duration == old(duration)
      ensures StartDisabled(chapter, subChapter)
      ensures Valid()
    {
      chapter := key;
      subChapter := [];
    }

    /** A click on a topic. */
    method SelectTopic(topic: string)
      requires Valid()
      modifies this
      ensures subject == old(subject) && chapter == old(chapter) && subChapter == topic && duration == old(duration)
      ensures Valid()
    {
      subChapter := topic;
    }

    /** A new session length from the duration menu. */
    method SelectDuration(minutes: nat)
      requires Valid()
      modifies this
      ensures subject == old(subject) && chapter == old(chapter) && subChapter == old(subChapter) && duration == minutes
      ensures Valid()
    {
      duration := minutes;
    }

    /** `handleStartTeaching`: the chapter alert when no chapter is chosen,
        the topic alert when no topic is; otherwise a navigation carrying
        exactly the current choice and the subject's and chapter's display
        names. It navigates exactly when the button is enabled. */
    method StartTeaching() returns (r: StartOutcome)
      requires Valid()
      ensures chapter == [] ==> r == Alert(ChapterAlert)
      ensures chapter != [] && subChapter == [] ==> r == Alert(TopicAlert)
      ensures r.Navigate? <==> !StartDisabled(chapter, subChapter)
      ensures r.Navigate? ==>
        && r.state.subject == subject && r.state.chapter == chapter
        && r.state.subChapter == subChapter && r.state.duration == duration
        && r.state.subjectName == subjects[subject].name
        && r.state.chapterName == subjects[subject].chapters[chapter]
    {
      if chapter == [] {
        return Alert(ChapterAlert);
      }
      if subChapter == [] {
        return Alert(TopicAlert);
      }
      var info := subjects[subject];
      r := Navigate(TeachingState(subject, chapter, subChapter, duration, info.name, info.chapters[chapter]));
    }
  }

  /** Choosing a subject, one of its chapters and a non-empty topic, in that
      order, always leads to a start that navigates with that choice. */
  method SelectThenStart(p: Planner, subject: string, chapter: string, topic: string) returns (r: StartOutcome)
    requires p.Valid() && subject in p.subjects && chapter in p.subjects[subject].chapters && topic != []
    modifies p
    ensures r.Navigate?
    ensures r.state.subject == subject && r.state.chapter == chapter && r.state.subChapter == topic
    ensures r.state.chapterName == p.subjects[subject].chapters[chapter]
  {
    p.SelectSubject(subject);
    p.SelectChapter(chapter);
    p.SelectTopic(topic);
    r := p.StartTeaching();
  }
}
