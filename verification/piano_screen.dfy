/**
 The full piano screen: the shared keyboard plus the detected-raaga label, the saved
 recording's location, and guided mode. Starting a recording depends on the microphone
 permission and the recorder device; both arrive here as an outcome parameter.
 */
module PianoScreen {
  import opened Wrappers
  import opened Notes
  import opened Matcher
  import Catalogue
  import K = Keyboard

  datatype Screen = Screen(
    kb: K.KeyState,
    detectedRaaga: string,
    recordingUri: Option<string>,
    guidedMode: bool,
    selectedRaaga: string)

  const InitialScreen: Screen := Screen(K.Initial, "", None, false, "Mohanam")

  /** What asking for the microphone and creating the recorder came to. */
  datatype StartOutcome = PermissionDenied | StartFailed | RecorderCreated

  /** What stopping the device recorder came to: a failure, or the saved file's location if any. */
  datatype StopOutcome = StopFailed | Stopped(uri: Option<string>)

  /** Guided mode highlights the keys whose swara belongs to the selected raaga; otherwise every key. */
  function IsKeyInRaaga(s: Screen, key: Key): (b: bool)
    ensures !s.guidedMode ==> b
    ensures s.guidedMode ==>
      (b <==> exists k :: 0 <= k < |Raagas| && Raagas[k].name == s.selectedRaaga
                          && key in KeyToSwara && KeyToSwara[key] in Raagas[k].pattern)
  {
    if !s.guidedMode then true
    else
      var k := IndexOf(s.selectedRaaga);
      k >= 0 && key in KeyToSwara && KeyToSwara[key] in Raagas[k].pattern
  }

  /** The key that sounds swara `x`. */
  function KeyFor(x: Swara): (key: Key)
    ensures key in KeyToSwara && KeyToSwara[key] == x
  {
    match x
    case Sa => "A"
    case Ri => "S"
    case Ga => "D"
    case Ma => "F"
    case Pa => "G"
    case Da => "H"
    case Ni => "J"
    case UpperSa => "K"
    case UpperRi => "L"
  }

  /** Presses of the keys for `pattern`, in order, all at offset `time`: they play back as the pattern. */
  function PatternPresses(pattern: seq<Swara>, time: int): (events: seq<Event>)
    ensures |events| == |pattern|
    ensures forall i :: 0 <= i < |events| ==> events[i].key in KeyToSwara
    ensures Played(events) == pattern
  {
    var events := seq(|pattern|, i requires 0 <= i < |pattern| => Event(KeyFor(pattern[i]), time));
    PlayedAllMapped(events);
    events
  }

  /**
   In guided mode every swara of the selected raaga has a highlighted key, and playing those
   keys in pattern order gives back exactly the pattern.
   */
  lemma GuidedKeysSpellPattern(s: Screen, k: int, time: int)
    requires s.guidedMode && 0 <= k < |Raagas| && s.selectedRaaga == Raagas[k].name
    ensures forall i :: 0 <= i < |Raagas[k].pattern| ==> IsKeyInRaaga(s, KeyFor(Raagas[k].pattern[i]))
    ensures Played(PatternPresses(Raagas[k].pattern, time)) == Raagas[k].pattern
  {
    var p := Raagas[k].pattern;
    var events := PatternPresses(p, time);
    forall i | 0 <= i < |p|
      ensures IsKeyInRaaga(s, KeyFor(p[i]))
    {
      assert KeyToSwara[KeyFor(p[i])] in Raagas[k].pattern;
    }
    PlayedAllMapped(events);
  }

  /**
   Guided practice of a reachable raaga is recognised; for the others the screen reports some
   other name (Kalyani's scale, for one, is reported as Mayamalavagowla).
   */
  lemma GuidedPracticeReported(s: Screen, k: int, time: int)
    requires s.guidedMode && 0 <= k < |Raagas| && s.selectedRaaga == Raagas[k].name
    ensures k in Catalogue.Reachable ==> Detect(Played(PatternPresses(Raagas[k].pattern, time))) == s.selectedRaaga
    ensures k !in Catalogue.Reachable ==> Detect(Played(PatternPresses(Raagas[k].pattern, time))) != s.selectedRaaga
  {
    GuidedKeysSpellPattern(s, k, time);
    var p := Raagas[k].pattern;
    if k in Catalogue.Reachable {
      Catalogue.ReachableAreReported(k);
    } else {
      Catalogue.OnlyReachableReported(p);
      Catalogue.ShadowedNeverFirst(k, p);
      NamesDistinctFrom(k);
    }
  }

  /** A key goes down; guided mode only highlights, so every key still sounds. */
  function PressIn(s: Screen, key: Key, now: nat): (r: (Screen, seq<Key>))
    ensures r.0.kb == K.PressIn(s.kb, key, now).kb && r.1 == K.PressIn(s.kb, key, now).played
    ensures r.0.(kb := s.kb) == s
  {
    var p := K.PressIn(s.kb, key, now);
    (s.(kb := p.kb), p.played)
  }

  function PressOut(s: Screen, key: Key): (r: Screen)
    ensures r.kb == K.PressOut(s.kb, key)
    ensures r.(kb := s.kb) == s
  {
    s.(kb := K.PressOut(s.kb, key))
  }

  /**
   Starting a recording: with the recorder created it clears the recording and the detected
   raaga and restarts the clock; a denied permission or a device failure changes nothing.
   */
  function StartRecording(s: Screen, now: nat, outcome: StartOutcome): (r: Screen)
    ensures outcome.RecorderCreated? ==>
      && r.kb.recording && r.kb.events == [] && r.kb.startTime == now
      && r.kb.activeKeys == s.kb.activeKeys && r.detectedRaaga == ""
      && r.recordingUri == s.recordingUri && r.guidedMode == s.guidedMode
      && r.selectedRaaga == s.selectedRaaga
    ensures !outcome.RecorderCreated? ==> r == s
  {
    match outcome
    case RecorderCreated => s.(kb := K.StartRecording(s.kb, now), detectedRaaga := "")
    case _ => s
  }

  /**
   Stopping a recording always ends it, before the device is asked; the saved file's
   location is kept only when the device stop succeeds. The recorded presses are untouched.
   */
  function StopRecording(s: Screen, outcome: StopOutcome): (r: Screen)
    ensures !r.kb.recording && r.kb.events == s.kb.events && r.kb.activeKeys == s.kb.activeKeys
    ensures r.kb == K.StopRecording(s.kb)
    ensures r.recordingUri == (if outcome.Stopped? then outcome.uri else s.recordingUri)
    ensures r.(kb := s.kb, recordingUri := s.recordingUri) == s
  {
    var kb := K.StopRecording(s.kb);
    match outcome
    case Stopped(uri) => s.(kb := kb, recordingUri := uri)
    case StopFailed => s.(kb := kb)
  }

  /**
   Play: label the recording with the first raaga whose pattern it contains (or say none
   matched), and set one timer per recorded press at its offset.
   */
  function PlayBack(s: Screen): (r: (Screen, seq<K.Trigger>))
    ensures r.0.(detectedRaaga := s.detectedRaaga) == s
    ensures r.0.detectedRaaga == NoMatchText <==> NoneMatch(Played(s.kb.events))
    ensures r.0.detectedRaaga != NoMatchText ==>
      exists k :: IsFirstMatch(k, Played(s.kb.events)) && r.0.detectedRaaga == Raagas[k].name
    ensures K.Scheduled(r.1) == s.kb.events
  {
    K.ReplayRoundTrip(s.kb.events);
    (s.(detectedRaaga := Detect(Played(s.kb.events))), K.Replay(s.kb.events))
  }

  /** The same playback through the nested loops of the screen's `playBack`. */
  method PlayBackLoops(s: Screen) returns (r: Screen, timers: seq<K.Trigger>)
    ensures (r, timers) == PlayBack(s)
  {
    var detected := DetectRaaga(Played(s.kb.events));
    r := s.(detectedRaaga := detected);
    timers := K.Replay(s.kb.events);
  }

  /**
   However the device stop ends, the screen is no longer recording: later presses sound but
   leave the recording as it was, so Play replays exactly what was recorded before the stop.
   */
  lemma StoppedScreenKeepsRecording(s: Screen, outcome: StopOutcome, key: Key, now: nat)
    ensures PressIn(StopRecording(s, outcome), key, now).0.kb.events == s.kb.events
    ensures K.Scheduled(PlayBack(PressIn(StopRecording(s, outcome), key, now).0).1) == s.kb.events
  {
  }

  /** The screen opens with the shared tracker's initial state, guided mode off and Mohanam selected. */
  lemma InitialScreenValid(now: nat)
    ensures InitialScreen.kb == K.Initial && K.Valid(InitialScreen.kb, now)
    ensures InitialScreen.detectedRaaga == "" && InitialScreen.recordingUri == None
    ensures !InitialScreen.guidedMode && IndexOf(InitialScreen.selectedRaaga) == 2
  {
  }

  /** A refused start leaves the screen idle, so no key press is recorded. */
  lemma DeniedStartRecordsNothing(s: Screen, now: nat, key: Key, later: nat)
    requires !s.kb.recording
    ensures !StartRecording(s, now, PermissionDenied).kb.recording
    ensures PressIn(StartRecording(s, now, PermissionDenied), key, later).0.kb.events == s.kb.events
  {
  }

  /** Playing back a recording of A S D G H, 100 ms apart, reports Mohanam and replays the five presses. */
  lemma MohanamRecordingReported(s: Screen)
    requires s.kb.events == [Event("A", 0), Event("S", 100), Event("D", 200), Event("G", 300), Event("H", 400)]
    ensures PlayBack(s).0.detectedRaaga == "Mohanam"
    ensures K.Scheduled(PlayBack(s).1) == s.kb.events
  {
    var events := s.kb.events;
    assert KeyFor(Sa) == "A" && KeyFor(Ri) == "S" && KeyFor(Ga) == "D" && KeyFor(Pa) == "G" && KeyFor(Da) == "H";
    var played := Played(events);
    assert played == [Sa, Ri, Ga, Pa, Da] by {
      PlayedAllMapped(events);
    }
    Catalogue.MohanamExample(played);
  }
}
