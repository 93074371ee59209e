/**
 The key-state tracker, recorder and replay shared by both piano screens. The screen state
 is an immutable record; each handler is a pure transition that also returns the keys it
 hands to `playNote`, and replay returns the (key, delay) timers it would set.
 */
module Keyboard {
  import opened Notes
  import opened Subsequence

  /** Held keys (a list used as a set), whether recording, the recorded presses, and the clock origin. */
  datatype KeyState = KeyState(activeKeys: seq<Key>, recording: bool, events: seq<Event>, startTime: nat)

  const Initial: KeyState := KeyState([], false, [], 0)

  ghost predicate NoDuplicates<T>(s: seq<T>) {
    forall i, j :: 0 <= i < j < |s| ==> s[i] != s[j]
  }

  /** A transition's outcome: the new state and the keys passed to `playNote`, in call order. */
  datatype Press = Press(kb: KeyState, played: seq<Key>)

  /** A key goes down at time `now`: only an unheld key sounds, and it is recorded while recording. */
  function PressIn(kb: KeyState, key: Key, now: nat): (r: Press)
    ensures key in kb.activeKeys ==> r == Press(kb, [])
    ensures key !in kb.activeKeys ==> r.played == [key]
    ensures forall k :: k in r.kb.activeKeys <==> k in kb.activeKeys || k == key
    ensures NoDuplicates(kb.activeKeys) ==> NoDuplicates(r.kb.activeKeys)
    ensures r.kb.recording == kb.recording && r.kb.startTime == kb.startTime
    ensures |r.kb.events| == |kb.events| + (if kb.recording then |r.played| else 0)
    ensures r.kb.events[..|kb.events|] == kb.events
    ensures |r.kb.events| > |kb.events| ==> r.kb.events[|kb.events|] == Event(key, now - kb.startTime)
  {
    if key in kb.activeKeys then Press(kb, [])
    else
      var events := if kb.recording then kb.events + [Event(key, now - kb.startTime)] else kb.events;
      Press(kb.(activeKeys := kb.activeKeys + [key], events := events), [key])
  }

  /** `keys` with every occurrence of `key` filtered out, the rest in order. */
  function Without(keys: seq<Key>, key: Key): (r: seq<Key>)
    ensures forall k :: k in r <==> k in keys && k != key
    ensures Subseq(r, keys)
    ensures key !in keys ==> r == keys
  {
    if keys == [] then
      SubseqNil(keys);
      []
    else
      var rest := Without(keys[1..], key);
      assert keys == [keys[0]] + keys[1..];
      if keys[0] == key then
        SubseqConsRight(keys[0], rest, keys[1..]);
        rest
      else
        SubseqConsBoth(keys[0], rest, keys[1..]);
        [keys[0]] + rest
  }

  lemma {:induction false} WithoutAppend(keys: seq<Key>, key: Key)
    ensures Without(keys + [key], key) == Without(keys, key)
  {
    if keys == [] {
      assert [] + [key] == [key];
      assert [key][1..] == [];
    } else {
      assert (keys + [key])[0] == keys[0] && (keys + [key])[1..] == keys[1..] + [key];
      WithoutAppend(keys[1..], key);
    }
  }

  /** A key goes up: it is no longer held, every other held key stays, in order. */
  function PressOut(kb: KeyState, key: Key): (r: KeyState)
    ensures forall k :: k in r.activeKeys <==> k in kb.activeKeys && k != key
    ensures Subseq(r.activeKeys, kb.activeKeys)
    ensures key !in kb.activeKeys ==> r == kb
    ensures r.recording == kb.recording && r.events == kb.events && r.startTime == kb.startTime
  {
    kb.(activeKeys := Without(kb.activeKeys, key))
  }

  /** Releasing a freshly pressed key restores the held keys exactly. */
  lemma PressOutUndoesPressIn(kb: KeyState, key: Key, now: nat)
    requires key !in kb.activeKeys
    ensures PressOut(PressIn(kb, key, now).kb, key).activeKeys == kb.activeKeys
  {
    WithoutAppend(kb.activeKeys, key);
  }

  /** A second press of a held key, with no release in between, neither sounds nor records. */
  lemma RepeatedPressIgnored(kb: KeyState, key: Key, first: nat, second: nat)
    ensures PressIn(PressIn(kb, key, first).kb, key, second) == Press(PressIn(kb, key, first).kb, [])
  {
  }

  /** Recording starts afresh at `now`, with no permission gate (the simpler screen). */
  function StartRecording(kb: KeyState, now: nat): (r: KeyState)
    ensures r.recording && r.events == [] && r.startTime == now
    ensures r.activeKeys == kb.activeKeys
  {
    kb.(events := [], startTime := now, recording := true)
  }

  /** Recording stops; what was recorded is kept for playback. */
  function StopRecording(kb: KeyState): (r: KeyState)
    ensures !r.recording
    ensures r.events == kb.events && r.activeKeys == kb.activeKeys && r.startTime == kb.startTime
  {
    kb.(recording := false)
  }

  /** A timer set by replay: `playNote(key)` after `delay` milliseconds. */
  datatype Trigger = Trigger(key: Key, delay: int)

  /** Replay sets one timer per recorded press, in recording order, at its recorded offset. */
  function Replay(events: seq<Event>): (ts: seq<Trigger>)
    ensures |ts| == |events|
    ensures forall i :: 0 <= i < |events| ==> ts[i].key == events[i].key && ts[i].delay == events[i].time
  {
    if events == [] then []
    else [Trigger(events[0].key, events[0].time)] + Replay(events[1..])
  }

  /** The (key, offset) list a schedule of timers stands for. */
  function Scheduled(ts: seq<Trigger>): (events: seq<Event>)
    ensures |events| == |ts|
  {
    seq(|ts|, i requires 0 <= i < |ts| => Event(ts[i].key, ts[i].delay))
  }

  /** Replay loses nothing: its schedule is exactly the recording. */
  lemma ReplayRoundTrip(events: seq<Event>)
    ensures Scheduled(Replay(events)) == events
  {
  }

  /** A user input to the screen. */
  datatype Input = Down(key: Key) | Up(key: Key) | Start | Stop

  /**
   One input at time `now`, for the screen without the permission gate: key presses and
   releases go to the key handlers, the record button to start or stop.
   */
  function Step(kb: KeyState, input: Input, now: nat): (r: Press)
    ensures r.played == (if input.Down? && input.key !in kb.activeKeys then [input.key] else [])
    ensures r.kb.recording == (if input.Start? then true else if input.Stop? then false else kb.recording)
    ensures input.Down? || input.Up? ==> r.kb.startTime == kb.startTime
    ensures !input.Start? ==> |kb.events| <= |r.kb.events| && r.kb.events[..|kb.events|] == kb.events
  {
    match input
    case Down(key) => PressIn(kb, key, now)
    case Up(key) => Press(PressOut(kb, key), [])
    case Start => Press(StartRecording(kb, now), [])
    case Stop => Press(StopRecording(kb), [])
  }

  /** A sequence of timestamped inputs, with every `playNote` call they cause, in order. */
  function Run(kb: KeyState, inputs: seq<(Input, nat)>): Press
    decreases |inputs|
  {
    if inputs == [] then Press(kb, [])
    else
      var first := Step(kb, inputs[0].0, inputs[0].1);
      var rest := Run(first.kb, inputs[1..]);
      Press(rest.kb, first.played + rest.played)
  }

  /** The keys of a recording, in order. */
  function Keys(events: seq<Event>): seq<Key> {
    seq(|events|, i requires 0 <= i < |events| => events[i].key)
  }

  /** Inputs that only press and release keys. */
  ghost predicate OnlyKeys(inputs: seq<(Input, nat)>) {
    forall i :: 0 <= i < |inputs| ==> inputs[i].0.Down? || inputs[i].0.Up?
  }

  ghost predicate NoStart(inputs: seq<(Input, nat)>) {
    forall i :: 0 <= i < |inputs| ==> !inputs[i].0.Start?
  }

  lemma KeysAppend(events: seq<Event>, e: Event)
    ensures Keys(events + [e]) == Keys(events) + [e.key]
  {
  }

  /** One key input while recording: the recorded keys grow by the keys it sounds. */
  lemma KeyStepRecordsSounded(kb: KeyState, input: Input, now: nat)
    requires kb.recording && (input.Down? || input.Up?)
    ensures Step(kb, input, now).kb.recording
    ensures Keys(Step(kb, input, now).kb.events) == Keys(kb.events) + Step(kb, input, now).played
  {
    var r := Step(kb, input, now);
    if input.Down? && input.key !in kb.activeKeys {
      assert r.kb.events == kb.events + [Event(input.key, now - kb.startTime)];
      KeysAppend(kb.events, Event(input.key, now - kb.startTime));
    } else {
      assert r.kb.events == kb.events && r.played == [];
    }
  }

  /**
   While a recording runs, the recorder and the voice fire together: the recorded keys grow
   by exactly the keys that sounded, in the same order.
   */
  lemma {:induction false} RecordedKeysAreSounded(kb: KeyState, inputs: seq<(Input, nat)>)
    requires kb.recording && OnlyKeys(inputs)
    decreases |inputs|
    ensures Run(kb, inputs).kb.recording
    ensures Keys(Run(kb, inputs).kb.events) == Keys(kb.events) + Run(kb, inputs).played
  {
    if inputs == [] {
      assert Keys(kb.events) + [] == Keys(kb.events);
    } else {
      var first := Step(kb, inputs[0].0, inputs[0].1);
      var rest := Run(first.kb, inputs[1..]);
      OnlyKeysTail(inputs);
      KeyStepRecordsSounded(kb, inputs[0].0, inputs[0].1);
      RecordedKeysAreSounded(first.kb, inputs[1..]);
      RunCons(kb, inputs);
      var whole := Run(kb, inputs);
      var before, now, later := Keys(kb.events), first.played, rest.played;
      calc {
        Keys(whole.kb.events);
        Keys(first.kb.events) + later;
        (before + now) + later;
        { SeqAppendAssoc(before, now, later); }
        before + (now + later);
        before + whole.played;
      }
    }
  }

  lemma RunCons(kb: KeyState, inputs: seq<(Input, nat)>)
    requires inputs != []
    ensures Run(kb, inputs).kb == Run(Step(kb, inputs[0].0, inputs[0].1).kb, inputs[1..]).kb
    ensures Run(kb, inputs).played
            == Step(kb, inputs[0].0, inputs[0].1).played + Run(Step(kb, inputs[0].0, inputs[0].1).kb, inputs[1..]).played
  {
  }

  lemma OnlyKeysTail(inputs: seq<(Input, nat)>)
    requires inputs != [] && OnlyKeys(inputs)
    ensures OnlyKeys(inputs[1..])
  {
    forall i | 0 <= i < |inputs[1..]|
      ensures inputs[1..][i].0.Down? || inputs[1..][i].0.Up?
    {
      assert inputs[1..][i] == inputs[i + 1];
    }
  }

  /** Once stopped, nothing is recorded until the next start. */
  lemma {:induction false} StoppedRecordingIsFrozen(kb: KeyState, inputs: seq<(Input, nat)>)
    requires !kb.recording && NoStart(inputs)
    decreases |inputs|
    ensures !Run(kb, inputs).kb.recording
    ensures Run(kb, inputs).kb.events == kb.events
  {
    if inputs != [] {
      assert !inputs[0].0.Start?;
      assert NoStart(inputs[1..]) by {
        forall i | 0 <= i < |inputs[1..]|
          ensures !inputs[1..][i].0.Start?
        {
          assert inputs[1..][i] == inputs[i + 1];
        }
      }
      StoppedRecordingIsFrozen(Step(kb, inputs[0].0, inputs[0].1).kb, inputs[1..]);
    }
  }

  /**
   The state every reachable screen is in at clock reading `now`: no key held twice, and the
   recorded offsets non-negative, non-decreasing and no later than `now`.
   */
  ghost predicate Valid(kb: KeyState, now: nat) {
    && NoDuplicates(kb.activeKeys)
    && kb.startTime <= now
    && (forall i :: 0 <= i < |kb.events| ==> 0 <= kb.events[i].time <= now - kb.startTime)
    && (forall i, j :: 0 <= i < j < |kb.events| ==> kb.events[i].time <= kb.events[j].time)
  }

  /** The screen opens with nothing held, not recording, nothing recorded, and a valid state. */
  lemma InitialValid(now: nat)
    ensures Initial.activeKeys == [] && !Initial.recording && Initial.events == []
    ensures Valid(Initial, now)
  {
  }

  /** Every input keeps the screen valid, provided the clock does not run backwards. */
  lemma StepPreservesValid(kb: KeyState, input: Input, now: nat, later: nat)
    requires Valid(kb, now) && now <= later
    ensures Valid(Step(kb, input, later).kb, later)
  {
    match input
    case Down(key) =>
      var r := PressIn(kb, key, later).kb;
      if |r.events| > |kb.events| {
        assert r.events == kb.events + [Event(key, later - kb.startTime)];
      } else {
        assert r.events == kb.events;
      }
    case Up(key) =>
    case Start =>
    case Stop =>
  }

  /** Inputs whose timestamps never decrease, starting no earlier than `now`. */
  ghost predicate ClockFrom(inputs: seq<(Input, nat)>, now: nat) {
    && (|inputs| > 0 ==> now <= inputs[0].1)
    && forall i :: 0 < i < |inputs| ==> inputs[i - 1].1 <= inputs[i].1
  }

  function LastTime(inputs: seq<(Input, nat)>, now: nat): nat {
    if inputs == [] then now else inputs[|inputs| - 1].1
  }

  lemma {:induction false} RunPreservesValid(kb: KeyState, inputs: seq<(Input, nat)>, now: nat)
    requires Valid(kb, now) && ClockFrom(inputs, now)
    decreases |inputs|
    ensures Valid(Run(kb, inputs).kb, LastTime(inputs, now))
  {
    if inputs != [] {
      var t := inputs[0].1;
      StepPreservesValid(kb, inputs[0].0, now, t);
      assert ClockFrom(inputs[1..], t) by {
        if |inputs| > 1 {
          assert inputs[0].1 <= inputs[1].1;
        }
        forall i | 0 < i < |inputs[1..]|
          ensures inputs[1..][i - 1].1 <= inputs[1..][i].1
        {
          assert inputs[1..][i] == inputs[i + 1] && inputs[1..][i - 1] == inputs[i];
        }
      }
      RunPreservesValid(Step(kb, inputs[0].0, t).kb, inputs[1..], t);
      if |inputs| > 1 {
        assert inputs[1..][|inputs[1..]| - 1] == inputs[|inputs| - 1];
      }
    }
  }

  /** Start at `t`, press A at `t` and D 250 ms later, stop: the recording is A at 0, D at 250. */
  lemma RecordingExample(kb: KeyState, t: nat)
    requires kb.activeKeys == []
    ensures Run(kb, [(Start, t), (Down("A"), t), (Down("D"), t + 250), (Stop, t + 250)]).kb.events
            == [Event("A", 0), Event("D", 250)]
  {
    var inputs := [(Start, t), (Down("A"), t), (Down("D"), t + 250), (Stop, t + 250)];
    var s1 := StartRecording(kb, t);
    var s2 := PressIn(s1, "A", t).kb;
    var s3 := PressIn(s2, "D", t + 250).kb;
    assert "D" !in s2.activeKeys;
    assert Run(kb, inputs).kb == Run(s1, inputs[1..]).kb;
    assert inputs[1..][1..] == [(Down("D"), t + 250), (Stop, t + 250)];
    assert Run(s1, inputs[1..]).kb == Run(s2, inputs[2..]).kb;
    assert inputs[2..][1..] == [(Stop, t + 250)];
    assert Run(s2, inputs[2..]).kb == Run(s3, inputs[3..]).kb;
    assert inputs[3..][1..] == [];
    assert Run(s3, inputs[3..]).kb == StopRecording(s3);
  }
}
