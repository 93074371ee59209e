# Piano screens of the MIDI interactive keyboard, in Dafny

The app's two piano screens share a small performance core. This project models that core.

- **Key-state tracker.** It keeps the set of held keys. A key sounds only when it goes down
  while not already held.
- **Recorder.** While a recording runs, every sounded key press is stored as
  `{key, time}`. The time is the offset in milliseconds from the recording start.
- **Replay.** It sets one timer per recorded press, at its offset.
- **Raaga matcher.** This lives in the full screen's Play handler. It maps the recorded keys to
  swaras (Sa, Ri, Ga, …) and walks the raaga catalogue in table order. It reports the first
  raaga whose swara pattern occurs, in order, in what was played. When none occurs it reports
  "No known raaga matched".
- **Guided mode.** It highlights the keys whose swara belongs to the selected raaga.

Modules:

| module | file | contents |
|---|---|---|
| `Notes` | `notes.dfy` | the key-to-swara table and the sixteen-entry raaga catalogue, in the order Piano.js declares it |
| `Subsequence` | `subsequence.dfy` | the reference meaning of "pattern occurs in order": a strictly increasing index embedding. Also a recursive decision procedure proved equal to it, and the algebra the catalogue proofs need (transitivity, prefixes, length) |
| `Matcher` | `matcher.dfy` | the played-swara sequence, the cursor walk of the screen's `playBack` (`MatchPattern`), the first-match scan (`DetectRaaga`) and its functional meaning (`Detect`) |
| `Catalogue` | `catalogue.dfy` | facts about the fixed catalogue under first-match priority |
| `Keyboard` | `keyboard.dfy` | the tracker, the recorder and replay shared by both screens (the simpler screen's start and stop have no permission gate). Also `Run` over a timestamped input list and the invariants it keeps |
| `PianoScreen` | `piano_screen.dfy` | the full screen: guided mode, the permission-gated recorder, and Play = matcher + replay |

Effects are modelled as data:
- The handlers return the keys they pass to `playNote`.
- Replay returns `Trigger(key, delay)` timers instead of calling `setTimeout`.
- The clock reading is an explicit `now: nat` parameter.
- The permission prompt, recorder creation and recorder stop are an outcome parameter
  (`StartOutcome`, `StopOutcome`).

One consequence of the catalogue is proved (`Catalogue.OnlyReachableReported`): only six of the
sixteen raagas can ever be reported.
- Kalyani, Kharaharapriya, Sankarabharanam, Charukesi, Todi and Sarasangi have the same pattern
  as Mayamalavagowla.
- Shankarabharanam extends Mayamalavagowla, and Bilahari extends Mohanam.
- Kambhoji contains Mohanam's pattern, and Durbar contains Hamsadhwani's.

An earlier entry therefore always matches first.

## Model

| member | source | states |
|---|---|---|
| Notes.IndexOf | MIDI/components/Piano.js:79 | looking a raaga up by name finds the entry with that name, and catalogue names are unique, so no other entry has it; a name not in the catalogue gives -1 |
| Subsequence.IsSubsequence | MIDI/components/Piano.js:193-200 | the recursive decision procedure is true exactly when an order-preserving embedding of the pattern into the sequence exists |
| Subsequence.SubseqTransitive | MIDI/components/Piano.js:188-206 | if pattern a occurs in order in b and b in c, then a occurs in order in c (this drives the priority facts) |
| Subsequence.SubseqLength | MIDI/components/Piano.js:193-198 | a pattern can only occur in a sequence at least as long as itself |
| Subsequence.SubseqMissing | MIDI/components/Piano.js:194-197 | a pattern containing a swara absent from the played sequence never matches |
| Matcher.Played | MIDI/components/Piano.js:182-184 | the played swaras are no more than the recorded presses, and every one is a value of the key-to-swara table |
| Matcher.PlayedOne | MIDI/components/Piano.js:182-184 | a press contributes the swara of its key, and a press of a key without a swara is dropped |
| Matcher.PlayedAppend | MIDI/components/Piano.js:182-184 | mapping keeps order: the swaras of a concatenated recording are the concatenation of the swaras of its parts |
| Matcher.PlayedAllMapped | MIDI/components/Piano.js:182-184 | when every key has a swara, the i-th played swara is the swara of the i-th press, and nothing is dropped |
| Matcher.MatchPattern | MIDI/components/Piano.js:189-200 | the greedy cursor walk reports a match if and only if the pattern is an ordered subsequence of the played swaras |
| Matcher.FirstMatchFrom | MIDI/components/Piano.js:188-206 | scanning from an entry on returns the first entry at or after it whose pattern matches, or none when no such entry matches |
| Matcher.FirstMatch | MIDI/components/Piano.js:188-206 | the scan result is the first catalogue entry that matches, and it is absent exactly when no entry matches |
| Matcher.FirstMatchUnique | MIDI/components/Piano.js:202-205 | whichever entry is first to match is the one the scan returns |
| Matcher.Detect | MIDI/components/Piano.js:186-208 | the reported text is "No known raaga matched" exactly when no pattern matches; otherwise it is the name of the first matching entry |
| Matcher.DetectRaaga | MIDI/components/Piano.js:186-208 | the `playBack` loop over the catalogue with its break on the first match computes `Detect` |
| Catalogue.EarlierPatternShadows | MIDI/components/Piano.js:188-206 | an entry whose pattern contains the pattern of an earlier entry is never the first match, whatever is played |
| Catalogue.ShadowOf | MIDI/components/Piano.js:55-72 | each of the ten entries outside the six reachable ones contains the pattern of an earlier entry |
| Catalogue.ShadowedNeverFirst | MIDI/components/Piano.js:55-72 | none of those ten entries is ever the first match |
| Catalogue.OnlyReachableReported | MIDI/components/Piano.js:188-208 | for every played sequence, the report is one of Mayamalavagowla, Mohanam, Hamsadhwani, Abhogi, Revati, Ritigowla or the no-match text |
| Catalogue.DuplicatesNeverReported | MIDI/components/Piano.js:56-71 | Shankarabharanam, Bilahari, Kambhoji, Durbar and the six raagas with Mayamalavagowla's pattern are never reported |
| Catalogue.EarlierAllNeed | MIDI/components/Piano.js:55-72 | if every entry before k needs a swara the played sequence lacks, none of them matches |
| Catalogue.OwnPatternFirst | MIDI/components/Piano.js:188-206 | an entry is reported on its own pattern when every earlier entry needs a swara it lacks |
| Catalogue.ReachableAreReported | MIDI/components/Piano.js:188-206 | playing a reachable raaga's own scale reports that raaga |
| Catalogue.MohanamExample | MIDI/components/Piano.js:58-61 | Sa Ri Ga Pa Da reports Mohanam, although Hamsadhwani shares its first four swaras |
| Catalogue.ShortPerformanceUnmatched | MIDI/components/Piano.js:194-198 | fewer than five swaras, the empty performance included, never match any raaga |
| Catalogue.OutOfOrderUnmatched | MIDI/components/Piano.js:193-208 | the match is order-sensitive: Ri Sa Ga Pa Da matches nothing |
| Keyboard.PressIn | MIDI/components/Piano1.js:99-104 | a held key changes nothing and sounds nothing. An unheld key sounds exactly once and is added to the held keys, which stay duplicate-free. While recording, the press is appended at the end with offset now - start; otherwise the recording is unchanged |
| Keyboard.Without | MIDI/components/Piano1.js:109 | filtering removes exactly the released key, keeps every other key in order, and is the identity when the key is absent |
| Keyboard.PressOut | MIDI/components/Piano1.js:108-110 | release removes exactly that key, keeps the others in order, changes nothing else, and is a no-op for an unheld key |
| Keyboard.RepeatedPressIgnored | MIDI/components/Piano1.js:100 | a second press of a key already held, with no release in between, changes no state and sounds nothing |
| Keyboard.PressOutUndoesPressIn | MIDI/components/Piano.js:127-137 | pressing an unheld key and releasing it restores the held keys exactly |
| Keyboard.StartRecording | MIDI/components/Piano1.js:113-117 | starting clears the recording, resets the clock origin to now and sets recording, with no permission gate |
| Keyboard.StopRecording | MIDI/components/Piano1.js:118 | stopping only clears the recording flag; the recorded presses are kept for playback |
| Keyboard.Replay | MIDI/components/Piano1.js:119 | one timer per recorded press, in order, with the press's key and its offset as delay |
| Keyboard.ReplayRoundTrip | MIDI/components/Piano1.js:119 | the (key, offset) list the timers stand for is exactly the recording |
| Keyboard.Step | MIDI/components/Piano1.js:167-191 | an input is routed to its handler: only a press of an unheld key sounds, and it sounds that key alone; the record button alone turns recording on or off; key inputs keep the clock origin, and every input but start keeps what was recorded as a prefix |
| Keyboard.InitialValid | MIDI/components/Piano1.js:25-28 | the screen opens with no key held, not recording and nothing recorded, in a valid state |
| Keyboard.KeyStepRecordsSounded | MIDI/components/Piano1.js:99-110 | while recording, one press or release grows the recorded keys by exactly the keys it sounds |
| Keyboard.RecordedKeysAreSounded | MIDI/components/Piano1.js:99-110 | while recording, any run of presses and releases records exactly the keys that sounded, in the same order |
| Keyboard.StoppedRecordingIsFrozen | MIDI/components/Piano1.js:103 | when recording is off and no start comes, nothing is ever recorded |
| Keyboard.StepPreservesValid | MIDI/components/Piano1.js:99-118 | each input keeps the held keys duplicate-free and the offsets non-negative, non-decreasing and no later than the clock, as long as the clock does not run backwards |
| Keyboard.RunPreservesValid | MIDI/components/Piano1.js:99-118 | the same holds for any input sequence with a non-decreasing clock |
| Keyboard.RecordingExample | MIDI/components/Piano1.js:103-118 | start at t, press A at t and D 250 ms later, then stop: the recording is A at 0 and D at 250 |
| PianoScreen.IsKeyInRaaga | MIDI/components/Piano.js:76-80 | with guided mode off every key qualifies. With it on, a key qualifies exactly when it has a swara that occurs in the selected raaga's pattern, so an unmapped key or an unknown raaga gives false |
| PianoScreen.KeyFor | MIDI/components/Piano.js:50-53 | every swara is sounded by some key of the table |
| PianoScreen.PatternPresses | MIDI/components/Piano.js:50-53 | pressing the keys for a swara pattern in order uses only keys of the table, and those presses play back as exactly the pattern |
| PianoScreen.GuidedKeysSpellPattern | MIDI/components/Piano.js:76-80 | in guided mode every swara of the selected raaga has a highlighted key, and playing those keys in order yields exactly the pattern |
| PianoScreen.GuidedPracticeReported | MIDI/components/Piano.js:76-80 | guided practice of a selected raaga's scale reports that raaga exactly when it is one of the six reachable entries |
| PianoScreen.InitialScreenValid | MIDI/components/Piano.js:21-32 | the full screen opens in the shared tracker's initial state, with no detected raaga, no saved file, guided mode off and Mohanam, a catalogue entry, selected |
| PianoScreen.PressIn | MIDI/components/Piano.js:127-132 | the full screen's press is the shared tracker's; guided mode only highlights and blocks no key |
| PianoScreen.PressOut | MIDI/components/Piano.js:136-139 | the full screen's release is the shared tracker's and changes nothing else |
| PianoScreen.StartRecording | MIDI/components/Piano.js:141-166 | with the recorder created, the recording and the detected label are cleared, the clock restarts and recording begins. A denied permission or a failing device leaves the screen unchanged |
| PianoScreen.StopRecording | MIDI/components/Piano.js:168-177 | recording always ends, and the shared tracker's stop is applied, so the recorded presses, held keys and clock origin stay. The saved file's location is replaced only when the device stop succeeds, and no other field of the screen changes |
| PianoScreen.StoppedScreenKeepsRecording | MIDI/components/Piano.js:127-132 | after a stop, whatever the device outcome, a key press sounds but records nothing, so Play still replays exactly the recording made before the stop |
| PianoScreen.PlayBack | MIDI/components/Piano.js:179-213 | only the detected label changes. It is the no-match text exactly when no pattern matches, otherwise the first matching raaga's name. The timers replay the recording exactly |
| PianoScreen.PlayBackLoops | MIDI/components/Piano.js:179-213 | the nested loops of `playBack` compute the same label and timers as `PlayBack` |
| PianoScreen.DeniedStartRecordsNothing | MIDI/components/Piano.js:141-147 | after a refused start the screen is not recording, so a key press records nothing |
| PianoScreen.MohanamRecordingReported | MIDI/components/Piano.js:179-213 | playing back A S D G H recorded 100 ms apart reports Mohanam and replays the five presses |

## Left out

- The `normalize` step of the matcher (trimming and removing whitespace) is the identity on the
  swara labels of the two tables. Swaras are therefore an enumeration, and the labels Sa' and
  Ri' become `UpperSa` and `UpperRi`.
- `.filter(Boolean)` after the key-to-swara lookup is modelled as dropping presses of keys that
  have no swara. This is the only way a lookup can produce `undefined` here.
- The `matched || 'No known raaga matched'` fallback is modelled with an explicit found flag.
  It is equivalent because every catalogue name is non-empty.
- `playNote` itself is out of scope. Its pitch and volume are floating-point with `Math.random`
  jitter, and its echo timer and the expo-av sound calls are foreign audio. The model records
  only which key was passed to it.
- The volume clamp of the full screen is left out because it concerns floating-point volume
  only.
- Real timers, the Date clock, React state batching and stale closures are left out. Handlers
  are modelled as sequential transitions at a given clock reading. `setTimeout` becomes the
  returned list of timers, and a negative delay is kept as recorded.
- The microphone permission prompt, the audio-mode call, recorder creation and
  `stopAndUnloadAsync`/`getURI` are replaced by an outcome parameter. Their alerts and
  console logging are dropped.
- Share Recording (`Sharing.shareAsync`) is left out as a foreign call. Sound loading and
  unloading on mount, the key animations and the flashing-key highlight are UI only.
- The Play button is disabled while the recording is empty, and the settings switches and pickers
  set `guidedMode` and `selectedRaaga` directly. `PlayBack` accepts an empty recording
  (`Catalogue.ShortPerformanceUnmatched` covers it), and the setters are plain field updates.
- MIDI/main.py, MIDI/components/Intro.js, MIDI/App.js and MIDI/PianoKey.js are not part of this
  model. They are a hardware MIDI endpoint, navigation and layout.
