# A virtual JEE classroom, modelled in Dafny

The application lets a teacher plan a lesson and then teach it to eight
simulated students. The teacher picks a subject, a chapter, a topic and a
session length. During the session the teacher's speech is cut into chunks.
Each chunk goes to a response selector, which decides whether students ask
questions, matches the chunk against a curriculum and picks the asking
personas and their questions. A timer counts the session down. At the end a
rewards dialog adds the earned coins and experience to stored totals and may
award a new title. A progress card shows the level, the title and the coins
still needed for the next title.

The model has one module per part of the application:

- `StudentSimulator` and `SimulatorTables`: the response selector with its
  curriculum, personas and question templates.
- `TeachingSession`: speech chunking, the silence timer, the flush on stop,
  and the delivery of responses to the classroom.
- `Rewards`: the bookkeeping the rewards dialog does when it opens.
- `UserProgress`: the progress card.
- `DurationSelector`: the session lengths and the coins and experience each
  earns.
- `TeachingTimer`: the session timer and its `MM:SS` display.
- `LessonPlan`: the lesson selection cascade and its start guard.

Three helper modules stand in for the browser and the language:

- `Text`: ASCII `toLowerCase`, `trim`, `includes`, `toString` and `parseInt`.
- `Storage`: local storage as a map of numbers and a map of texts.
- `Wrappers`: the `Option` type.

Sources of nondeterminism become parameters:

- Every `Math.random()` call is a draw, a real in [0, 1).
- `new Date()` is a `now` parameter.
- Whether the browser has a speech recogniser is a constructor parameter.
- A scheduled browser timer is recorded by its delay. The environment fires it
  by calling `FireTimer`.

## Model

| member | source | states |
|---|---|---|
| Text.Lower | src/utils/studentSimulator.ts:179 | Lower-casing keeps the length and leaves no ASCII capital. Each capital becomes the small letter at the same place in the alphabet, and every other character is kept. |
| Text.LowerIdempotent | src/utils/studentSimulator.ts:229 | Lower-casing an already lower-cased string changes nothing. |
| Text.LowerOfLowercase | src/utils/studentSimulator.ts:229 | A string without capitals is unchanged by lower-casing. |
| Text.SpacesFrom | src/pages/TeachingSession.tsx:178 | The whitespace run that starts at an index: every character in it is whitespace and the one after it is not. |
| Text.SpacesBefore | src/pages/TeachingSession.tsx:178 | The whitespace run that ends at an index: every character in it is whitespace and the one before it is not. |
| Text.TrimShape | src/pages/TeachingSession.tsx:178-182 | `trim` returns a contiguous part of its input with no whitespace at either end. The result is empty exactly when the input is all whitespace. |
| Text.TrimOfTrimmed | src/pages/TeachingSession.tsx:179-182 | Trimming a string that has no whitespace at either end changes nothing. |
| Text.ContainsInfix | src/utils/studentSimulator.ts:270-289 | A string built around a word contains that word. |
| Text.NatToString | src/components/DurationSelector.tsx:59 | `toString` of a non-negative integer is a non-empty digit string with no leading zero. It is one digit exactly for numbers below 10. |
| Text.NatToStringRoundTrip | src/components/DurationSelector.tsx:59 | The value of the printed digits is the number printed. |
| Text.LeadingZeroValue | src/components/TeachingTimer.tsx:52 | Prefixing a zero keeps a digit string a digit string of the same value. |
| Text.LeadingDigits | src/components/DurationSelector.tsx:53 | The leading run of digits is a prefix, all digits, and is followed by a non-digit or the end. |
| Text.ParseInt | src/components/DurationSelector.tsx:53 | On a string that has no leading whitespace, sign or `0x` prefix, `parseInt` gives no number exactly when the string does not start with a decimal digit. |
| Text.ParseIntOfNatToString | src/components/DurationSelector.tsx:53-59 | `parseInt(n.toString())` is `n` for every non-negative `n`. |
| Text.AllDigitsLeading | src/components/DurationSelector.tsx:53 | On a string of digits, the leading run is the whole string. |
| SimulatorTables.PersonaNamesDistinct | src/utils/studentSimulator.ts:107-172 | No two personas share a name. |
| SimulatorTables.PersonaLineCounts | src/utils/studentSimulator.ts:294-415 | Eight personas with Varun last. Each has 4 generic lines (Varun 5) and 3 specialisation lines. |
| SimulatorTables.PersonaPreferences | src/utils/studentSimulator.ts:20-172 | The curriculum has physics, chemistry and mathematics, and two personas prefer each of them. |
| SimulatorTables.InterferenceListedTwice | src/utils/studentSimulator.ts:36-55 | "interference" is a concept of the oscillations-and-waves chapter and of the optics chapter. |
| SimulatorTables.TopicFramesCount | src/utils/studentSimulator.ts:266-291 | There are four topic questions for physics, chemistry and mathematics, and none for any other subject. |
| StudentSimulator.MatchListMember | src/utils/studentSimulator.ts:228-237 | A word is matched exactly when it is listed and the lower-cased input contains its lower-cased form. |
| StudentSimulator.MatchListCount | src/utils/studentSimulator.ts:228-237 | Matching keeps every occurrence of a mentioned word, duplicates included, and drops all occurrences of an unmentioned one. |
| StudentSimulator.MatchChaptersAppend | src/utils/studentSimulator.ts:227-238 | The matches of a list of chapters are the matches of its first part followed by the matches of the rest. |
| StudentSimulator.MatchChaptersMember | src/utils/studentSimulator.ts:227-238 | A keyword is returned exactly when the input mentions it and some chapter lists it as a concept or a topic. |
| StudentSimulator.MatchedAreMentioned | src/utils/studentSimulator.ts:227-240 | Every returned keyword is mentioned by the lower-cased input. |
| StudentSimulator.RelevantTopicsMember | src/utils/studentSimulator.ts:220-240 | For a known subject, a keyword is returned exactly when it is a concept or topic of that subject and the input mentions it. |
| StudentSimulator.ConceptMatched | src/utils/studentSimulator.ts:228-232 | A mentioned concept of any chapter is returned. |
| StudentSimulator.MatchedTwice | src/utils/studentSimulator.ts:227-238 | A keyword listed as a concept of two chapters is returned twice. |
| StudentSimulator.InterferenceMatchedTwice | src/utils/studentSimulator.ts:220-240 | A physics utterance that mentions "interference" gets it back twice. |
| StudentSimulator.PhysicsMatches | src/utils/studentSimulator.ts:220-227 | The physics matches are the matches over the physics chapters in declaration order. |
| StudentSimulator.PersonasWellFormed | src/utils/studentSimulator.ts:107-172 | The persona table has distinct names and a non-empty generic list for every persona. |
| StudentSimulator.PoolIndices | src/utils/studentSimulator.ts:199-201 | The pool positions rise strictly, each position is interested, and every interested position is included. |
| StudentSimulator.Pool | src/utils/studentSimulator.ts:199-201 | Every pool member comes from the table. |
| StudentSimulator.PoolMembership | src/utils/studentSimulator.ts:199-201 | A persona is in the pool exactly when it prefers the subject or its draw exceeds 0.7. |
| StudentSimulator.PoolDistinctNames | src/utils/studentSimulator.ts:199-201 | No two pool members share a name. |
| StudentSimulator.PoolWellFormed | src/utils/studentSimulator.ts:199-204 | The pool of a well-formed table is well formed. |
| StudentSimulator.PoolAtLeastTwo | src/utils/studentSimulator.ts:199-201 | For each curriculum subject the pool has at least two personas, whatever the draws. |
| StudentSimulator.PoolHoldsPreferring | src/utils/studentSimulator.ts:199-201 | Two personas that prefer the subject give a pool of at least two. |
| StudentSimulator.ResponseCount | src/utils/studentSimulator.ts:203 | The count is at most 3 and at most the pool size. It is at least 2 unless it equals the pool size. It is 3 exactly when the draw is at least 0.5 and the pool has 3 or more. |
| StudentSimulator.CurriculumSubjectsGetTwo | src/utils/studentSimulator.ts:199-203 | For physics, chemistry and mathematics the count is at least 2. |
| StudentSimulator.PickIndex | src/utils/studentSimulator.ts:253 | `Math.floor(r * n)` is a valid index into a list of `n` items. |
| StudentSimulator.ScaledDrawBelow | src/utils/studentSimulator.ts:253 | A draw scaled by `n` lies in [0, n). |
| StudentSimulator.TopicTemplatesMention | src/utils/studentSimulator.ts:266-291 | There are four topic questions for the three subjects and none otherwise, and each mentions the topic. |
| StudentSimulator.FillMentions | src/utils/studentSimulator.ts:270-289 | Every filled question frame contains its topic. |
| StudentSimulator.PatternsShape | src/utils/studentSimulator.ts:258-418 | For the table's personas the pattern list has 4 topic questions when they apply, then 4 generic lines (5 for Varun), then 3 extra lines on the persona's specialisation subject. The first four mention the first matched keyword. |
| StudentSimulator.Simulator.constructor | src/utils/studentSimulator.ts:20-173 | The simulator holds the curriculum and the persona table, and the table is well formed. |
| StudentSimulator.CollectMentioned | src/utils/studentSimulator.ts:228-237 | The loop over one word list appends exactly the words the lower-cased input mentions, in list order. |
| StudentSimulator.Simulator.FindRelevantTopics | src/utils/studentSimulator.ts:220-241 | The loop returns the chapter-by-chapter matches, concepts before topics. The result is empty for an unknown subject, and the input mentions every returned keyword. |
| StudentSimulator.Simulator.GetResponsePatterns | src/utils/studentSimulator.ts:258-418 | The pushed list is the pattern list. It is non-empty, and it starts with four questions on the first keyword when those apply. |
| StudentSimulator.Simulator.GenerateStudentResponse | src/utils/studentSimulator.ts:243-256 | The response is the template the draw picks, so it is one element of the pattern list. |
| StudentSimulator.Simulator.GenerateResponses | src/utils/studentSimulator.ts:175-218 | Nothing comes back for a greeting, a short utterance, or a short utterance with no keyword. Otherwise there are `min(floor(2r)+2, pool, 3)` responses. Response `i` answers for pool persona `i` with its name, avatar, voice and drawn template, and no name appears twice. |
| StudentSimulator.Simulator.RespondEach | src/utils/studentSimulator.ts:206-215 | One response per chosen persona in order, each answering for its persona, with distinct names. |
| TeachingSession.AccumulateTrimmed | src/pages/TeachingSession.tsx:178-182 | From a trimmed chunk, the new chunk is the old one, one space and the trimmed phrase, with no space when either part is empty. It is trimmed again and its length adds up. |
| TeachingSession.TimerDelay | src/pages/TeachingSession.tsx:168 | The delay is below 1200 ms exactly when processing is forced. |
| TeachingSession.FinalPhrases | src/pages/TeachingSession.tsx:174-176 | There are no more final phrases than results. |
| TeachingSession.AccumulateAllTrimmed | src/pages/TeachingSession.tsx:174-189 | A run of final phrases keeps the chunk trimmed, and a run of whitespace-only phrases leaves it unchanged. |
| TeachingSession.ResultStep | src/pages/TeachingSession.tsx:174-192 | One more result extends the final phrases or the interim text according to its kind, and the chunk accordingly. |
| TeachingSession.DeliveryDelay | src/pages/TeachingSession.tsx:103 | Response `i` is delivered no sooner than 2000 ms. |
| TeachingSession.DeliveryOrder | src/pages/TeachingSession.tsx:71-103 | A later response is delivered at least 2000 ms after an earlier one. |
| TeachingSession.MarkSpoke | src/pages/TeachingSession.tsx:87-93 | Same length and order. Only the tiles with the responder's name get `lastSpoke = now`; every other field is unchanged. |
| TeachingSession.MarkSpokeOthers | src/pages/TeachingSession.tsx:87-93 | A tile with another name is unchanged. |
| TeachingSession.SpeechChunker.constructor | src/pages/TeachingSession.tsx:26-44 | Not recording, empty chunk, no timer, empty transcript line. |
| TeachingSession.SpeechChunker.ScheduleProcess | src/pages/TeachingSession.tsx:154-169 | Any old timer is cancelled. A new one with delay 0 or 1200 is scheduled only while recording. |
| TeachingSession.SpeechChunker.OnFinalPhrase | src/pages/TeachingSession.tsx:176-189 | The chunk becomes the accumulated chunk. The timer is rescheduled, forced by a sentence end or a chunk over 100 characters. |
| TeachingSession.SpeechChunker.OnResult | src/pages/TeachingSession.tsx:171-197 | The final results join the chunk in order. The timer is untouched when none is final; otherwise it is the one scheduled for the last final phrase, 0 ms when that phrase or the chunk forces processing and 1200 ms otherwise, and none when not recording. The line shown is the chunk and the interim text, joined and trimmed. |
| TeachingSession.SpeechChunker.FireTimer | src/pages/TeachingSession.tsx:162-167 | A whitespace-only chunk is left alone and nothing is processed. Otherwise the chunk is cleared and its trimmed text is processed. |
| TeachingSession.SpeechChunker.StopRecording | src/pages/TeachingSession.tsx:280-300 | With a recogniser: recording stops, the timer is cancelled and the chunk is emptied; the trimmed leftover is processed only when longer than 10. Without one: nothing changes. |
| TeachingSession.SpeechChunker.StartRecording | src/pages/TeachingSession.tsx:268-278 | With a recogniser, the line is cleared and recording starts. |
| TeachingSession.SpeechChunker.OnEnd | src/pages/TeachingSession.tsx:209-216 | Recording stops and the timer is cancelled. |
| TeachingSession.SpeechChunker.OnError | src/pages/TeachingSession.tsx:199-207 | Recording stops; the timer and the chunk stay. |
| TeachingSession.Classroom.constructor | src/pages/TeachingSession.tsx:119-131 | No messages, the eight initial tiles, no speaker. |
| TeachingSession.Classroom.ProcessTeacherInput | src/pages/TeachingSession.tsx:50-61 | The teacher's message is appended and nothing else changes. |
| TeachingSession.Classroom.Deliver | src/pages/TeachingSession.tsx:72-96 | The student message is appended, the responder is marked as having spoken, and it becomes the speaker. |
| TeachingSession.Classroom.ClearSpeaker | src/pages/TeachingSession.tsx:102 | The speaker is cleared and nothing else changes. |
| Storage.WriteNumber | src/components/RewardsModal.tsx:58 | The key reads the new number, every other key reads as before, and the texts are untouched. |
| Storage.WriteText | src/components/RewardsModal.tsx:54 | The key holds the new text, every other key reads as before, and the numbers are untouched. |
| Rewards.LadderShape | src/components/RewardsModal.tsx:40-49 | Eight titles with strictly rising thresholds, from Beginner at 0 to Legend at 5000. |
| Rewards.FindFromTop | src/components/RewardsModal.tsx:51 | A found title is on the ladder and within reach. None is found exactly when no threshold is reached. |
| Rewards.TopDownSearch | src/components/RewardsModal.tsx:51 | On a rising ladder, the search from the top finds a title exactly when the lowest threshold is reached, and the one it finds has the greatest threshold within reach. |
| Rewards.TitleForSpec | src/components/RewardsModal.tsx:40-51 | A title is found exactly for a total of 0 or more. It is the ladder entry with the greatest threshold within reach, and every other entry within reach has a strictly smaller threshold. |
| Rewards.ApplyRewards | src/components/RewardsModal.tsx:37-60 | The coin and experience totals (default 0) grow by the earned amounts and no other number changes. The title is written and announced exactly when the chosen one differs from the stored one (default Beginner). |
| Rewards.RewardsModal.constructor | src/components/RewardsModal.tsx:29-30 | No animation and no new title. |
| Rewards.RewardsModal.OnOpenEffect | src/components/RewardsModal.tsx:32-62 | While closed nothing changes. When open, the store becomes the one `ApplyRewards` gives, the animation starts, and the new title is set when one is announced. |
| UserProgress.LaddersAgree | src/components/UserProgress.tsx:22-31 | The card's ladder has the dialog's titles, thresholds and icons, in the same order. |
| UserProgress.ProgressLadderNames | src/components/UserProgress.tsx:22-31 | Eight distinct names with Legend last and rising thresholds. |
| UserProgress.LoadProgress | src/components/UserProgress.tsx:12-20 | Missing entries give 0 coins, 0 experience and Beginner. Present numbers are read as stored, and a stored title is used unless it is empty, which gives Beginner. |
| UserProgress.IndexOfName | src/components/UserProgress.tsx:33 | `findIndex` gives the first rung with the name, and -1 exactly when there is none. |
| UserProgress.NextTitleSpec | src/components/UserProgress.tsx:33-35 | The next title is the rung after the current one, and there is none exactly for Legend. An unknown title has the first rung as its next title. |
| UserProgress.CoinsToUnlock | src/components/UserProgress.tsx:92-104 | Shown exactly when a next title exists; added to the coins it gives the next threshold. |
| UserProgress.Percentage | src/components/UserProgress.tsx:38 | A part between 0 and the whole gives a percentage in [0, 100). |
| UserProgress.ProgressToNextBounds | src/components/UserProgress.tsx:37-39 | Legend shows 100. A known title gives a defined bar, which lies in [0, 100) while the coins are between the two thresholds. |
| UserProgress.LegendMessageWhenTop | src/components/UserProgress.tsx:92-111 | The achievement message is shown exactly when no next title is shown. |
| UserProgress.Level | src/components/UserProgress.tsx:41 | `(level-1)*100 <= xp < level*100`, and the level is at least 1 for xp of 0 or more. |
| UserProgress.XpProgress | src/components/UserProgress.tsx:42 | For xp of 0 or more it lies in [0, 100), and `(level-1)*100` plus it is xp. For negative xp it lies in (-100, 0]. |
| DurationSelector.TableShape | src/components/DurationSelector.tsx:12-18 | Five options with strictly rising minutes, coins and experience. |
| DurationSelector.FindOption | src/components/DurationSelector.tsx:24 | A found option is listed and has the value. Nothing is found exactly when no option has it. |
| DurationSelector.FindUnique | src/components/DurationSelector.tsx:24 | With distinct values, looking up an option's value finds that option. |
| DurationSelector.SelectedOptionSpec | src/components/DurationSelector.tsx:24-74 | The preview is the option of the selected length, and there is none for an unlisted length. |
| DurationSelector.SelectRoundTrip | src/components/DurationSelector.tsx:53-59 | Choosing an item hands back its value, and the lookup of that value is the option. |
| TeachingTimer.Remaining | src/components/TeachingTimer.tsx:24 | Never negative. It completes the elapsed time to the target, and is 0 past it. |
| TeachingTimer.NextElapsed | src/components/TeachingTimer.tsx:31-43 | One more second below the target; the target once reached. |
| TeachingTimer.ElapsedAfterSpec | src/components/TeachingTimer.tsx:31-43 | `k` ticks give `min(elapsed + k, target)`. |
| TeachingTimer.CompletionsAfterSpec | src/components/TeachingTimer.tsx:37-40 | `onComplete` is first called by the tick that reaches the target and then by every later tick. |
| TeachingTimer.Timer.constructor | src/components/TeachingTimer.tsx:20-23 | The target is minutes times 60, nothing has elapsed, and the timer is not paused. |
| TeachingTimer.Timer.Tick | src/components/TeachingTimer.tsx:27-47 | Inactive or paused: nothing. Otherwise the update is reported, elapsed advances and is capped at the target, and `onComplete` is signalled when the target is reached. |
| TeachingTimer.Timer.Reset | src/components/TeachingTimer.tsx:55-58 | Elapsed is 0 and the pause is cleared. |
| TeachingTimer.Timer.TogglePause | src/components/TeachingTimer.tsx:70-78 | The pause flips only while the button is shown, that is while active. |
| TeachingTimer.Timer.RemainingTime | src/components/TeachingTimer.tsx:24 | Never negative, and elapsed plus remaining is the target. |
| TeachingTimer.RunTicks | src/components/TeachingTimer.tsx:30-44 | `k` active ticks from zero give `min(k, target)` elapsed, `k` updates, and one completion per tick at or past the target. |
| TeachingTimer.Pad2 | src/components/TeachingTimer.tsx:52 | `padStart(2, '0')`: at least two characters, with the input at the end and zeros before it. |
| TeachingTimer.Around | src/components/TeachingTimer.tsx:52 | The minutes, the colon and the seconds sit where the reader expects them. |
| TeachingTimer.Clock | src/components/TeachingTimer.tsx:52 | The padded minutes, a colon, then the padded seconds. |
| TeachingTimer.ShortNumber | src/components/TeachingTimer.tsx:51 | Seconds within a minute print as at most two digits. |
| TeachingTimer.FormatTime | src/components/TeachingTimer.tsx:49-53 | The text has at least five characters, with the colon third from the end. |
| TeachingTimer.Pad2Value | src/components/TeachingTimer.tsx:52 | Zero padding keeps the digits' value. |
| TeachingTimer.ParseTimeOfShape | src/components/TeachingTimer.tsx:52 | Digits, a colon and two digits read as minutes times 60 plus seconds. |
| TeachingTimer.ClockRoundTrip | src/components/TeachingTimer.tsx:52 | A clock of two digit strings reads back as their values. |
| TeachingTimer.PrintedClockRoundTrip | src/components/TeachingTimer.tsx:50-52 | Printed minutes and seconds read back as their total. |
| TeachingTimer.FormatTimeRoundTrip | src/components/TeachingTimer.tsx:49-53 | Reading a formatted time back gives `mins*60 + secs`, the seconds formatted. |
| LessonPlan.SubjectTableShape | src/pages/LessonPlan.tsx:11-144 | Physics, chemistry and mathematics, and no chapter key is empty. |
| LessonPlan.Planner.constructor | src/pages/LessonPlan.tsx:147-150 | Physics, no chapter, no topic, 30 minutes. |
| LessonPlan.Planner.SelectSubject | src/pages/LessonPlan.tsx:235-238 | The subject is set, the chapter and topic are cleared, and start is disabled. |
| LessonPlan.Planner.SelectChapter | src/pages/LessonPlan.tsx:274-276 | The chapter is set, the topic is cleared, and the subject is kept. |
| LessonPlan.Planner.SelectTopic | src/pages/LessonPlan.tsx:329 | Only the topic changes. |
| LessonPlan.Planner.SelectDuration | src/pages/LessonPlan.tsx:307-310 | Only the duration changes. |
| LessonPlan.Planner.StartTeaching | src/pages/LessonPlan.tsx:169-191 | The chapter alert without a chapter, then the topic alert without a topic. It navigates exactly when the button is enabled (line 380), with the current choice and the two display names. |
| LessonPlan.SelectThenStart | src/pages/LessonPlan.tsx:169-191 | Choosing a subject, one of its chapters and a topic, then starting, always navigates with that choice. |

## Left out

- The browser speech recogniser and speech synthesis, the camera, the toasts
  and all rendering are not modelled. They are foreign calls or presentation.
- Browser timers (`setTimeout`, `setInterval`, `clearTimeout`) run
  concurrently in the application. The model records a scheduled silence
  timer by its delay, and the environment fires it by calling `FireTimer`.
  The delivery of responses is modelled by the delay of response `i` and by
  `Deliver` and `ClearSpeaker`, not by their interleaving with other events.
- `isRecordingRef` follows the recording state one render later. The model
  reads the recording flag directly, so it does not capture that lag.
- `TeachingSession.Classroom.ProcessTeacherInput`: the call into the simulator
  and the scheduling of deliveries are left to the caller. The processing flag
  and the error toast are left out.
- `TeachingSession.SpeechChunker.OnResult` requires `resultIndex` to be at most
  the number of results, as the recogniser guarantees.
- `TeachingSession.SpeechChunker.FireTimer` marks the timer as no longer
  scheduled. In the application the fired handle stays in the ref until the
  next cancel, which then calls `clearTimeout` on a timer that has already
  fired and has no effect.
- `StudentSimulator.Simulator.GenerateStudentResponse` requires the persona
  to have generic lines. Every persona of the table does, and
  `PersonasWellFormed` proves it.
- The curriculum and the persona table are constants fixed by the
  `Simulator` constructor, as in the application; nothing ever changes them.
- Floating point: `progressToNext` is computed on exact reals, and the timer's
  `progress` percentage and the `Math.min(progressToNext, 100)` clamp are not
  modelled.
- `UserProgress.ProgressToNext`: an unknown stored title makes
  `currentTitleData` undefined. Where the application would read a field of
  `undefined`, the model returns no value.
- Storage holds parsed numbers. `parseInt` of a stored string that is not a
  number (`NaN`) is not modelled.
- `TeachingTimer.Timer.Tick` takes `isActive` as a parameter, because the
  activity flag belongs to the session page.
- `LessonPlan.Planner.SelectSubject` and `LessonPlan.Planner.SelectChapter`
  require a key that is on offer, because the page only renders those keys.
- `LessonPlan` keeps only each subject's name and its chapter names. The topic
  lists, difficulty, exam weight, chapter count display and the colour mappers
  are presentation.
- The colour mapper of the duration menu is presentation.
- `Text.ParseInt` reads only a leading run of decimal digits. JavaScript's
  `parseInt` also skips leading whitespace and accepts a sign and a `0x`
  prefix, so `" 7"`, `"-3"` and `"0x1A"` differ. The only call parses the
  text of a non-negative number, where `ParseIntOfNatToString` shows the two
  agree.
- String lengths count characters (Unicode scalar values). JavaScript's
  `.length` counts UTF-16 code units, which differ for characters outside the
  Basic Multilingual Plane, such as emoji. The length thresholds of the
  response selector and of the chunker are modelled on the former.
- Full Unicode lower-casing and whitespace are not modelled. `Text` handles
  ASCII letters and ASCII whitespace, and leaves every other character as it
  is.
- `src/components/ChapterSelector.tsx`, `src/components/TeachingInterface.tsx`,
  `src/components/VideoControls.tsx`, `src/components/StudentGrid.tsx`,
  `src/components/ChatMessage.tsx`, `src/components/TranscriptDisplay.tsx` and
  `src/components/ClearConversation.tsx` are not part of this model. They
  hold UI and plumbing.
