/**
 The raaga matcher of the piano screen's playback: recorded key presses become a sequence
 of swaras, and the first catalogue raaga whose pattern is an ordered subsequence of it is
 reported.
 */
module Matcher {
  import opened Wrappers
  import opened Notes
  import opened Subsequence

  /** What the screen shows when no catalogue pattern is found in the played swaras. */
  const NoMatchText: string := "No known raaga matched"

  /** The swaras of the recorded presses in order; presses of keys without a swara are dropped. */
  function Played(events: seq<Event>): (r: seq<Swara>)
    ensures |r| <= |events|
    ensures forall i :: 0 <= i < |r| ==> r[i] in KeyToSwara.Values
  {
    if events == [] then []
    else
      var rest := Played(events[1..]);
      var key := events[0].key;
      if key in KeyToSwara then [KeyToSwara[key]] + rest else rest
  }

  /** A single press contributes its swara, or nothing when its key has none. */
  lemma PlayedOne(e: Event)
    ensures e.key in KeyToSwara ==> Played([e]) == [KeyToSwara[e.key]]
    ensures e.key !in KeyToSwara ==> Played([e]) == []
  {
    assert [e][1..] == [];
  }

  /** Playing more after a recording only extends its swara sequence. */
  lemma {:induction false} PlayedAppend(a: seq<Event>, b: seq<Event>)
    ensures Played(a + b) == Played(a) + Played(b)
  {
    if a == [] {
      assert a + b == b;
    } else {
      assert (a + b)[0] == a[0] && (a + b)[1..] == a[1..] + b;
      PlayedAppend(a[1..], b);
      var key := a[0].key;
      if key in KeyToSwara {
        assert Played(a + b) == [KeyToSwara[key]] + (Played(a[1..]) + Played(b));
      }
    }
  }

  /** When every recorded key has a swara, the swara sequence follows the presses one by one. */
  lemma {:induction false} PlayedAllMapped(events: seq<Event>)
    requires forall i :: 0 <= i < |events| ==> events[i].key in KeyToSwara
    ensures |Played(events)| == |events|
    ensures forall i :: 0 <= i < |events| ==> Played(events)[i] == KeyToSwara[events[i].key]
  {
    if events != [] {
      PlayedAllMapped(events[1..]);
    }
  }

  /**
   The pattern walk of the screen's `playBack`: a cursor moves over the played swaras, skipping to the next
   occurrence of each pattern swara in turn; running off the end means no match.
   */
  method MatchPattern(pattern: seq<Swara>, played: seq<Swara>) returns (matched: bool)
    ensures matched <==> Subseq(pattern, played)
  {
    matched := true;
    var i := 0;
    var j := 0;
    while j < |pattern|
      invariant 0 <= j <= |pattern| && 0 <= i <= |played|
      invariant IsSubsequence(pattern, played) == IsSubsequence(pattern[j..], played[i..])
      decreases |pattern| - j
    {
      var note := pattern[j];
      while i < |played| && played[i] != note
        invariant 0 <= i <= |played|
        invariant IsSubsequence(pattern, played) == IsSubsequence(pattern[j..], played[i..])
      {
        assert played[i..][1..] == played[i + 1..];
        i := i + 1;
      }
      if i == |played| {
        matched := false;
        break;
      }
      assert played[i..][1..] == played[i + 1..] && pattern[j..][1..] == pattern[j + 1..];
      i := i + 1;
      j := j + 1;
    }
  }

  /** Raaga `k` is the first catalogue entry whose pattern occurs in `played`. */
  ghost predicate IsFirstMatch(k: int, played: seq<Swara>) {
    && 0 <= k < |Raagas|
    && Subseq(Raagas[k].pattern, played)
    && forall j :: 0 <= j < k ==> !Subseq(Raagas[j].pattern, played)
  }

  ghost predicate NoneMatch(played: seq<Swara>) {
    forall j :: 0 <= j < |Raagas| ==> !Subseq(Raagas[j].pattern, played)
  }

  /** The catalogue scan, from entry `from` on. */
  function FirstMatchFrom(played: seq<Swara>, from: nat): (r: Option<nat>)
    requires from <= |Raagas|
    decreases |Raagas| - from
    ensures r.Some? ==> from <= r.value < |Raagas| && Subseq(Raagas[r.value].pattern, played)
    ensures r.Some? ==> forall j :: from <= j < r.value ==> !Subseq(Raagas[j].pattern, played)
    ensures r.None? ==> forall j :: from <= j < |Raagas| ==> !Subseq(Raagas[j].pattern, played)
  {
    if from == |Raagas| then None
    else if IsSubsequence(Raagas[from].pattern, played) then Some(from)
    else FirstMatchFrom(played, from + 1)
  }

  function FirstMatch(played: seq<Swara>): (r: Option<nat>)
    ensures r.Some? ==> IsFirstMatch(r.value, played)
    ensures r.None? <==> NoneMatch(played)
  {
    FirstMatchFrom(played, 0)
  }

  /** At most one catalogue entry is the first match. */
  lemma FirstMatchUnique(k: int, played: seq<Swara>)
    requires IsFirstMatch(k, played)
    ensures FirstMatch(played) == Some(k)
  {
    assert !NoneMatch(played) by {
      assert Subseq(Raagas[k].pattern, played);
    }
    var m := FirstMatch(played).value;
    assert !(m < k) by {
      assert IsFirstMatch(m, played);
    }
  }

  /** The text the screen reports for a played swara sequence. */
  function Detect(played: seq<Swara>): (name: string)
    ensures name == NoMatchText <==> NoneMatch(played)
    ensures name != NoMatchText ==> exists k :: IsFirstMatch(k, played) && name == Raagas[k].name
  {
    match FirstMatch(played)
    case Some(k) => Raagas[k].name
    case None => NoMatchText
  }

  /** The catalogue loop of the screen's `playBack`: patterns are tried in order and the first match stops it. */
  method DetectRaaga(played: seq<Swara>) returns (detected: string)
    ensures detected == Detect(played)
  {
    var found := false;
    var matched := "";
    var k := 0;
    while k < |Raagas|
      invariant 0 <= k <= |Raagas|
      invariant !found ==> FirstMatch(played) == FirstMatchFrom(played, k)
      invariant found ==> FirstMatch(played) == Some(k) && matched == Detect(played)
      decreases |Raagas| - k
    {
      var m := MatchPattern(Raagas[k].pattern, played);
      if m {
        found := true;
        matched := Raagas[k].name;
        break;
      }
      k := k + 1;
    }
    detected := if found then matched else NoMatchText;
  }
}
