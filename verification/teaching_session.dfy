/** The live teaching session: final speech phrases are collected into a
    pending chunk, a silence timer decides when the chunk is handed to the
    student simulator, stopping the recording flushes what is left, and each
    student response is delivered after a fixed delay and marks its student as
    having spoken.

    The speech recogniser, the clock and the browser timers are outside the
    model: recogniser events are method calls, `new Date()` is a `now`
    parameter, and a scheduled timer is recorded by its delay until the
    environment fires it with `FireTimer`. */
module TeachingSession {
  import opened Wrappers
  import opened Text
  import opened StudentSimulator

  /** Timer delay when processing is forced, in milliseconds. */
  const ForcedDelay: nat := 0
  /** Timer delay that stands for a pause ("end of thought"), in milliseconds. */
  const SilenceDelay: nat := 1200
  /** A pending chunk longer than this is processed without waiting. */
  const LongChunkLength: nat := 100
  /** A leftover chunk is processed on stop only when longer than this. */
  const MinLeftoverLength: nat := 10
  /** Spacing of student responses, in milliseconds. */
  const DeliverySpacing: nat := 2000

  datatype Message =
    | TeacherMessage(content: string, timestamp: int)
    | StudentMessage(content: string, timestamp: int, studentName: string, avatar: string, voiceType: string)

  /** One tile of the classroom; `lastSpoke` is absent until the student speaks. */
  datatype ActiveStudent = ActiveStudent(name: string, avatar: string, isActive: bool,
                                         lastSpoke: Option<int>, preference: string)

  /** One entry of a recogniser result list. */
  datatype SpeechResult = SpeechResult(transcript: string, isFinal: bool)

  /** The classroom as the session starts. */
  const InitialStudents: seq<ActiveStudent> := [
    ActiveStudent("Priya", "👩‍🎓", true, None, "mathematics"),
    ActiveStudent("Arjun", "👨‍🎓", true, None, "physics"),
    ActiveStudent("Sneha", "👩‍💻", true, None, "chemistry"),
    ActiveStudent("Rohit", "👨‍💻", true, None, "mathematics"),
    ActiveStudent("Ananya", "👩‍🔬", true, None, "physics"),
    ActiveStudent("Karthik", "👨‍🔬", true, None, "chemistry"),
    ActiveStudent("Divya", "👩‍🏫", true, None, "mathematics"),
    ActiveStudent("Varun", "👨‍🎯", true, None, "physics")
  ]

  // ---------------------------------------------------------------------------
  // Accumulating phrases

  /** `[a, b].filter(Boolean).join(' ')`: the non-empty parts, separated by one space. */
  function JoinSpace(a: string, b: string): string {
    if a == [] then b else if b == [] then a else a + " " + b
  }

  /** The pending chunk after a final phrase: the old chunk and the trimmed
      phrase joined, then trimmed. */
  function Accumulate(pending: string, phrase: string): string {
    Trim(JoinSpace(pending, Trim(phrase)))
  }

  /** When the chunk is already trimmed, the final trim changes nothing: the new
      chunk is the old one, one space and the trimmed phrase (no space when
      either is empty), and it is again trimmed. */
  lemma AccumulateTrimmed(pending: string, phrase: string)
    requires IsTrimmed(pending)
    ensures var p := Trim(phrase);
      && Accumulate(pending, phrase) == (if pending == [] then p else if p == [] then pending else pending + " " + p)
      && IsTrimmed(Accumulate(pending, phrase))
      && |Accumulate(pending, phrase)| == |pending| + |p| + (if pending != [] && p != [] then 1 else 0)
  {
    var p := Trim(phrase);
    TrimShape(phrase);
    var j := JoinSpace(pending, p);
    if pending != [] && p != [] {
      assert j[0] == pending[0];
      assert j[|j| - 1] == p[|p| - 1];
    }
    assert IsTrimmed(j);
    TrimOfTrimmed(j);
  }

  /** `/[.!?)]$/`: the phrase ends in a full stop, `!`, `?` or `)`. */
  predicate EndsSentence(s: string) {
    s != [] && s[|s| - 1] in {'.', '!', '?', ')'}
  }

  /** Processing is forced by a sentence-like end or a long chunk. */
  predicate Forces(trimmedPhrase: string, newPending: string) {
    EndsSentence(trimmedPhrase) || |newPending| > LongChunkLength
  }

  /** `force ? 0 : 1200`. */
  function TimerDelay(force: bool): (d: nat)
    ensures force <==> d < SilenceDelay
  {
    if force then ForcedDelay else SilenceDelay
  }

  /** The transcripts of the final results, in order. */
  function FinalPhrases(rs: seq<SpeechResult>): (r: seq<string>)
    ensures |r| <= |rs|
  {
    if rs == [] then []
    else FinalPhrases(rs[..|rs| - 1]) + (if rs[|rs| - 1].isFinal then [rs[|rs| - 1].transcript] else [])
  }

  /** The non-final transcripts, concatenated. */
  function InterimText(rs: seq<SpeechResult>): string {
    if rs == [] then []
    else InterimText(rs[..|rs| - 1]) + (if rs[|rs| - 1].isFinal then [] else rs[|rs| - 1].transcript)
  }

  /** The silence timer after a run of final phrases: untouched by none,
      otherwise the one the last phrase scheduled. */
  function TimerAfter(t0: Option<nat>, recording: bool, phrases: seq<string>, pending: string): Option<nat> {
    if phrases == [] then t0
    else if recording then Some(TimerDelay(Forces(Trim(phrases[|phrases| - 1]), pending)))
    else None
  }

  /** The chunk after a run of final phrases. */
  function AccumulateAll(pending: string, phrases: seq<string>): string {
    if phrases == [] then pending
    else Accumulate(AccumulateAll(pending, phrases[..|phrases| - 1]), phrases[|phrases| - 1])
  }

  /** A run of final phrases keeps a trimmed chunk trimmed, and an empty phrase
      changes nothing. */
  lemma {:induction false} AccumulateAllTrimmed(pending: string, phrases: seq<string>)
    requires IsTrimmed(pending)
    ensures IsTrimmed(AccumulateAll(pending, phrases))
    ensures (forall k :: 0 <= k < |phrases| ==> AllSpace(phrases[k])) ==> AccumulateAll(pending, phrases) == pending
  {
    if phrases != [] {
      var init := phrases[..|phrases| - 1];
      AccumulateAllTrimmed(pending, init);
      var last := phrases[|phrases| - 1];
      AccumulateTrimmed(AccumulateAll(pending, init), last);
      TrimShape(last);
      if forall k :: 0 <= k < |phrases| ==> AllSpace(phrases[k]) {
        assert forall k :: 0 <= k < |init| ==> init[k] == phrases[k];
        assert AllSpace(last);
      }
    }
  }

  /** Taking one more result adds its transcript to the final phrases or to the
      interim text, according to its kind. */
  lemma ResultStep(rs: seq<SpeechResult>, j: nat, pending: string)
    requires j < |rs|
    ensures var before, after := rs[..j], rs[..j + 1];
      && FinalPhrases(after) == FinalPhrases(before) + (if rs[j].isFinal then [rs[j].transcript] else [])
      && InterimText(after) == InterimText(before) + (if rs[j].isFinal then [] else rs[j].transcript)
      && AccumulateAll(pending, FinalPhrases(after))
         == if rs[j].isFinal then Accumulate(AccumulateAll(pending, FinalPhrases(before)), rs[j].transcript)
            else AccumulateAll(pending, FinalPhrases(before))
  {
    var before, after := rs[..j], rs[..j + 1];
    assert after[..|after| - 1] == before;
    assert after[|after| - 1] == rs[j];
    var f := FinalPhrases(before);
    if rs[j].isFinal {
      var g := f + [rs[j].transcript];
      assert FinalPhrases(after) == g;
      assert g[..|g| - 1] == f && g[|g| - 1] == rs[j].transcript;
    } else {
      assert FinalPhrases(after) == f;
    }
  }

  // ---------------------------------------------------------------------------
  // Delivering responses

  /** Response `i` of a batch is delivered `(i + 1) * 2000` ms after processing. */
  function DeliveryDelay(i: nat): (d: nat)
    ensures d >= DeliverySpacing
  {
    (i + 1) * DeliverySpacing
  }

  /** Later responses come later, at least 2000 ms apart. */
  lemma DeliveryOrder(i: nat, j: nat)
    requires i < j
    ensures DeliveryDelay(i) + DeliverySpacing <= DeliveryDelay(j)
  {
    assert DeliveryDelay(j) - DeliveryDelay(i) == (j - i) * DeliverySpacing;
  }

  /** The activity update: the students named `name` get `lastSpoke = now`. */
  function MarkSpoke(students: seq<ActiveStudent>, name: string, now: int): (r: seq<ActiveStudent>)
    ensures |r| == |students|
    ensures forall i :: 0 <= i < |r| ==>
      && r[i].name == students[i].name
      && r[i].avatar == students[i].avatar
      && r[i].isActive == students[i].isActive
      && r[i].preference == students[i].preference
      && r[i].lastSpoke == (if students[i].name == name then Some(now) else students[i].lastSpoke)
  {
    seq(|students|, i requires 0 <= i < |students| =>
      if students[i].name == name then students[i].(lastSpoke := Some(now)) else students[i])
  }

  /** Only the responder's tile changes: every other student is left as it was. */
  lemma MarkSpokeOthers(students: seq<ActiveStudent>, name: string, now: int, i: nat)
    requires i < |students| && students[i].name != name
    ensures MarkSpoke(students, name, now)[i] == students[i]
  {
  }

  // ---------------------------------------------------------------------------
  // Speech chunking

  /** The speech side of the session: the recording flag, the pending chunk,
      the silence timer and the transcript line shown under the video. A chunk
      handed to `processTeacherInput` is returned to the caller, which passes
      it on to the `Classroom`. */
  class SpeechChunker {
    /** Whether the browser has a speech recogniser. */
    const recognitionAvailable: bool
    var recording: bool
    /** The final phrases not yet handed on. */
    var pending: string
    /** The delay of the scheduled silence timer, if one is scheduled. */
    var timer: Option<nat>
    /** The transcript line shown under the video. */
    var display: string

    /** The pending chunk is always trimmed, and only a session with a
        recogniser records. */
    predicate Valid()
      reads this
    {
      IsTrimmed(pending) && (recording ==> recognitionAvailable)
    }

    constructor(recognitionAvailable: bool)
      ensures this.recognitionAvailable == recognitionAvailable
      ensures !recording && pending == [] && timer == None && display == []
      ensures Valid()
    {
      this.recognitionAvailable := recognitionAvailable;
      recording := false;
      pending := [];
      timer := None;
      display := [];
    }

    /** `scheduleProcess`: any scheduled timer is cancelled; a new one is
        scheduled only while recording. */
    method ScheduleProcess(force: bool)
      modifies this
      ensures timer == (if recording then Some(TimerDelay(force)) else None)
      ensures recording == old(recording) && pending == old(pending) && display == old(display)
    {
      if timer.Some? {
        timer := None;
      }
      if !recording {
        return;
      }
      timer := Some(TimerDelay(force));
    }

    /** One final phrase of `rec.onresult`: it joins the pending chunk, and the
        timer is rescheduled, forced by a sentence end or a long chunk. */
    method OnFinalPhrase(transcript: string)
      requires Valid()
      modifies this
      ensures Valid()
      ensures pending == Accumulate(old(pending), transcript)
      ensures timer == (if recording then Some(TimerDelay(Forces(Trim(transcript), pending))) else None)
      ensures recording == old(recording) && display == old(display)
    {
      var trimmed := Trim(transcript);
      AccumulateTrimmed(pending, transcript);
      pending := Trim(JoinSpace(pending, trimmed));
      if EndsSentence(trimmed) || |pending| > LongChunkLength {
        ScheduleProcess(true);
      } else {
        ScheduleProcess(false);
      }
    }

    /** `rec.onresult`: the final results from `resultIndex` on join the chunk
        one by one; the interim ones are shown after it. */
    method OnResult(results: seq<SpeechResult>, resultIndex: nat) returns (shown: string)
      requires Valid() && resultIndex <= |results|
      modifies this
      ensures Valid()
      ensures pending == AccumulateAll(old(pending), FinalPhrases(results[resultIndex..]))
      ensures FinalPhrases(results[resultIndex..]) == [] ==> timer == old(timer)
      ensures var f := FinalPhrases(results[resultIndex..]);
        f != [] ==> timer == (if recording then Some(TimerDelay(Forces(Trim(f[|f| - 1]), pending))) else None)
      ensures shown == Trim(JoinSpace(pending, InterimText(results[resultIndex..])))
      ensures display == shown && recording == old(recording)
    {
      var rs := results[resultIndex..];
      var interim := "";
      for j := 0 to |rs|
        invariant Valid()
        invariant pending == AccumulateAll(old(pending), FinalPhrases(rs[..j]))
        invariant interim == InterimText(rs[..j])
        invariant timer == TimerAfter(old(timer), recording, FinalPhrases(rs[..j]), pending)
        invariant recording == old(recording) && display == old(display)
      {
        ResultStep(rs, j, old(pending));
        var transcript := rs[j].transcript;
        if rs[j].isFinal {
          OnFinalPhrase(transcript);
        } else {
          interim := interim + transcript;
        }
      }
      assert rs[..|rs|] == rs;
      shown := Trim(JoinSpace(pending, interim));
      display := shown;
    }

    /** The silence timer fires: a chunk that is empty once trimmed is left
        alone and nothing is processed; otherwise the chunk is cleared and its
        trimmed text is processed, which clears the transcript line. */
    method FireTimer() returns (chunk: Option<string>)
      requires Valid() && timer.Some?
      modifies this
      ensures Valid()
      ensures timer == None && recording == old(recording)
      ensures Trim(old(pending)) == [] ==> chunk == None && pending == old(pending) && display == old(display)
      ensures Trim(old(pending)) != [] ==> chunk == Some(Trim(old(pending))) && pending == [] && display == []
    {
      timer := None;
      var text := Trim(pending);
      if text == [] {
        return None;
      }
      pending := [];
      chunk := Some(text);
      display := [];
    }

    /** `stopRecording`: with a recogniser, recording stops, the timer is
        cancelled, the chunk is always emptied, and its trimmed text is processed
        when longer than 10 characters; without one nothing happens. */
    method StopRecording() returns (chunk: Option<string>)
      requires Valid()
      modifies this
      ensures Valid()
      ensures !recognitionAvailable ==>
        chunk == None && recording == old(recording) && pending == old(pending)
        && timer == old(timer) && display == old(display)
      ensures recognitionAvailable ==>
        !recording && pending == [] && timer == None && display == []
        && chunk == (if |Trim(old(pending))| > MinLeftoverLength then Some(Trim(old(pending))) else None)
    {
      chunk := None;
      if !recognitionAvailable {
        return;
      }
      recording := false;
      if timer.Some? {
        timer := None;
      }
      var leftover := Trim(pending);
      pending := [];
      if leftover != [] && |leftover| > MinLeftoverLength {
        chunk := Some(leftover);
      }
      display := [];
    }

    /** `startRecording`: with a recogniser, the transcript line is cleared and
        recording starts. */
    method StartRecording()
      requires Valid()
      modifies this
      ensures Valid()
      ensures recording == (old(recording) || recognitionAvailable)
      ensures display == (if recognitionAvailable then [] else old(display))
      ensures pending == old(pending) && timer == old(timer)
    {
      if recognitionAvailable {
        display := [];
        recording := true;
      }
    }

    /** `rec.onend`: recording stops and the timer is cancelled. */
    method OnEnd()
      requires Valid()
      modifies this
      ensures Valid()
      ensures !recording && timer == None
      ensures pending == old(pending) && display == old(display)
    {
      recording := false;
      if timer.Some? {
        timer := None;
      }
    }

    /** `rec.onerror`: recording stops; a scheduled timer is left to fire. */
    method OnError()
      requires Valid()
      modifies this
      ensures Valid()
      ensures !recording
      ensures pending == old(pending) && timer == old(timer) && display == old(display)
    {
      recording := false;
    }
  }

  // ---------------------------------------------------------------------------
  // The classroom

  /** The message list, the student tiles and the current speaker. */
  class Classroom {
    var messages: seq<Message>
    var students: seq<ActiveStudent>
    var speaker: string

    constructor()
      ensures messages == [] && students == InitialStudents && speaker == []
    {
      messages := [];
      students := InitialStudents;
      speaker := [];
    }

    /** `processTeacherInput`, as far as the classroom goes: the teacher's
        message is added; the responses are generated by the simulator and
        delivered one by one later. */
    method ProcessTeacherInput(chunk: string, now: int)
      modifies this
      ensures messages == old(messages) + [TeacherMessage(chunk, now)]
      ensures students == old(students) && speaker == old(speaker)
    {
      messages := messages + [TeacherMessage(chunk, now)];
    }

    /** The delivery of one student response: its message is added, its
        student is marked as having spoken, and it becomes the speaker. */
    method Deliver(response: Response, now: int)
      modifies this
      ensures messages == old(messages)
        + [StudentMessage(response.content, now, response.studentName, response.avatar, response.voiceType)]
      ensures students == MarkSpoke(old(students), response.studentName, now)
      ensures speaker == response.studentName
    {
      messages := messages
        + [StudentMessage(response.content, now, response.studentName, response.avatar, response.voiceType)];
      students := MarkSpoke(students, response.studentName, now);
      speaker := response.studentName;
    }

    /** Three seconds after a delivery the speaker indicator is cleared. */
    method ClearSpeaker()
      modifies this
      ensures speaker == [] && messages == old(messages) && students == old(students)
    {
      speaker := [];
    }
  }
}
