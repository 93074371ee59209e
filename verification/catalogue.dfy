/**
 Facts about the fixed raaga catalogue under first-match priority. Because an earlier
 pattern that is a subsequence of a later one matches every performance the later one
 matches, only six of the sixteen entries can ever be reported.
 */
module Catalogue {
  import opened Notes
  import opened Subsequence
  import opened Matcher

  /** Mayamalavagowla, Mohanam, Hamsadhwani, Abhogi, Revati and Ritigowla. */
  const Reachable: set<int> := {0, 2, 5, 8, 10, 12}

  /** Priority: a raaga whose pattern contains an earlier raaga's pattern is never reported. */
  lemma EarlierPatternShadows(j: int, k: int, played: seq<Swara>)
    requires 0 <= j < k < |Raagas|
    requires Subseq(Raagas[j].pattern, Raagas[k].pattern)
    ensures !IsFirstMatch(k, played)
  {
    if Subseq(Raagas[k].pattern, played) {
      SubseqTransitive(Raagas[j].pattern, Raagas[k].pattern, played);
      assert Subseq(Raagas[j].pattern, played);
    }
  }

  /** Each entry outside `Reachable` contains the pattern of an earlier entry. */
  lemma ShadowOf(k: int) returns (j: int)
    requires 0 <= k < |Raagas| && k !in Reachable
    ensures 0 <= j < k && Subseq(Raagas[j].pattern, Raagas[k].pattern)
  {
    if k == 1 {
      j := 0;
      assert Raagas[1].pattern == Raagas[0].pattern + [UpperSa];
      SubseqPrefix(Raagas[0].pattern, [UpperSa]);
    } else if k == 4 {
      j := 2;
      assert Raagas[4].pattern == Raagas[2].pattern + [UpperSa];
      SubseqPrefix(Raagas[2].pattern, [UpperSa]);
    } else if k == 7 {
      j := 2;
      assert IsEmbedding([0, 1, 2, 4, 5], Raagas[2].pattern, Raagas[7].pattern);
    } else if k == 9 {
      j := 5;
      assert IsEmbedding([0, 1, 2, 4, 5], Raagas[5].pattern, Raagas[9].pattern);
    } else {
      j := 0;
      assert k in {3, 6, 11, 13, 14, 15};
      assert Raagas[k].pattern == Raagas[0].pattern;
      SubseqReflexive(Raagas[0].pattern);
    }
  }

  /** An entry outside `Reachable` is never the first match. */
  lemma ShadowedNeverFirst(k: int, played: seq<Swara>)
    requires 0 <= k < |Raagas| && k !in Reachable
    ensures !IsFirstMatch(k, played)
  {
    var j := ShadowOf(k);
    EarlierPatternShadows(j, k, played);
  }

  /** Whatever is played, the first match is one of the six reachable entries. */
  lemma OnlyReachableReported(played: seq<Swara>)
    ensures FirstMatch(played).Some? ==> FirstMatch(played).value in Reachable
    ensures Detect(played) in {"Mayamalavagowla", "Mohanam", "Hamsadhwani", "Abhogi", "Revati", "Ritigowla", NoMatchText}
  {
    var r := FirstMatch(played);
    if r.Some? && r.value !in Reachable {
      ShadowedNeverFirst(r.value, played);
    }
  }

  /**
   The entries with a pattern identical to Mayamalavagowla's, and Shankarabharanam, Bilahari,
   Kambhoji and Durbar, are never reported.
   */
  lemma DuplicatesNeverReported(played: seq<Swara>)
    ensures Detect(played) !in {"Shankarabharanam", "Kalyani", "Kharaharapriya", "Sankarabharanam", "Charukesi", "Todi", "Sarasangi"}
    ensures Detect(played) !in {"Bilahari", "Kambhoji", "Durbar"}
  {
    OnlyReachableReported(played);
  }

  /** A performance lacking swara `x`, which every entry before `k` needs, matches none of them. */
  lemma EarlierAllNeed(k: int, x: Swara, played: seq<Swara>)
    requires 0 <= k <= |Raagas| && x !in played
    requires forall j :: 0 <= j < k ==> x in Raagas[j].pattern
    ensures forall j :: 0 <= j < k ==> !Subseq(Raagas[j].pattern, played)
  {
    forall j | 0 <= j < k
      ensures !Subseq(Raagas[j].pattern, played)
    {
      SubseqMissing(Raagas[j].pattern, played, x);
    }
  }

  /** An entry comes first on its own pattern when every earlier entry needs a swara it lacks. */
  lemma OwnPatternFirst(k: int, x: Swara)
    requires 0 <= k < |Raagas| && x !in Raagas[k].pattern
    requires forall j :: 0 <= j < k ==> x in Raagas[j].pattern
    ensures Detect(Raagas[k].pattern) == Raagas[k].name
  {
    var p := Raagas[k].pattern;
    SubseqReflexive(p);
    EarlierAllNeed(k, x, p);
    FirstMatchUnique(k, p);
  }

  /** Every entry before Abhogi needs Pa, every one before Revati Ga, every one before Ritigowla Ri. */
  lemma EarlierNeedPa()
    ensures forall j :: 0 <= j < 8 ==> Pa in Raagas[j].pattern
  {
    forall j | 0 <= j < 8 ensures Pa in Raagas[j].pattern {
      assert j in {0, 1, 2, 3, 4, 5, 6, 7};
    }
  }

  lemma EarlierNeedGa()
    ensures forall j :: 0 <= j < 10 ==> Ga in Raagas[j].pattern
  {
    forall j | 0 <= j < 10 ensures Ga in Raagas[j].pattern {
      assert j in {0, 1, 2, 3, 4, 5, 6, 7, 8, 9};
    }
  }

  lemma EarlierNeedRi()
    ensures forall j :: 0 <= j < 12 ==> Ri in Raagas[j].pattern
  {
    forall j | 0 <= j < 12 ensures Ri in Raagas[j].pattern {
      assert j in {0, 1, 2, 3, 4, 5, 6, 7, 8, 9, 10, 11};
    }
  }

  /** Playing a reachable entry's own pattern reports that entry. */
  lemma ReachableAreReported(k: int)
    requires k in Reachable
    ensures Detect(Raagas[k].pattern) == Raagas[k].name
  {
    if k == 0 {
      OwnPatternFirst(k, UpperRi);
    } else if k == 2 {
      OwnPatternFirst(k, Ma);
    } else if k == 5 {
      OwnPatternFirst(k, Da);
    } else if k == 8 {
      EarlierNeedPa();
      OwnPatternFirst(k, Pa);
    } else if k == 10 {
      EarlierNeedGa();
      OwnPatternFirst(k, Ga);
    } else {
      EarlierNeedRi();
      OwnPatternFirst(k, Ri);
    }
  }

  /** An exact Mohanam performance reports Mohanam, although Hamsadhwani shares its first four swaras. */
  lemma MohanamExample(played: seq<Swara>)
    requires played == [Sa, Ri, Ga, Pa, Da]
    ensures Detect(played) == "Mohanam"
  {
    assert played == Raagas[2].pattern;
    ReachableAreReported(2);
  }

  /** Fewer swaras than the shortest pattern, the empty recording included, never match. */
  lemma ShortPerformanceUnmatched(played: seq<Swara>)
    requires |played| < 5
    ensures Detect(played) == NoMatchText
  {
    forall j | 0 <= j < |Raagas|
      ensures !Subseq(Raagas[j].pattern, played)
    {
      assert j in {0, 1, 2, 3, 4, 5, 6, 7, 8, 9, 10, 11, 12, 13, 14, 15};
      if Subseq(Raagas[j].pattern, played) {
        SubseqLength(Raagas[j].pattern, played);
      }
    }
  }

  /** The matcher is order-sensitive: all of Mohanam's swaras, but Ri before Sa, match nothing. */
  lemma OutOfOrderUnmatched(played: seq<Swara>)
    requires played == [Ri, Sa, Ga, Pa, Da]
    ensures Detect(played) == NoMatchText
  {
    SaBeforeRiMissing(played);
    forall j | 0 <= j < |Raagas|
      ensures !Subseq(Raagas[j].pattern, played)
    {
      if j == 12 {
        SubseqMissing(Raagas[j].pattern, played, Ma);
      } else {
        assert j in {0, 1, 2, 3, 4, 5, 6, 7, 8, 9, 10, 11, 13, 14, 15};
        assert Raagas[j].pattern[..2] == [Sa, Ri];
        if Subseq(Raagas[j].pattern, played) {
          SubseqOfPrefix(Raagas[j].pattern, 2, played);
        }
      }
    }
  }

  /** In `Ri Sa Ga Pa Da` no Ri follows a Sa. */
  lemma SaBeforeRiMissing(late: seq<Swara>)
    requires late == [Ri, Sa, Ga, Pa, Da]
    ensures !Subseq([Sa, Ri], late)
  {
    forall idx: seq<int> | |idx| == 2 && 0 <= idx[0] < 5 && 0 <= idx[1] < 5 && late[idx[0]] == Sa && late[idx[1]] == Ri
      ensures !IsEmbedding(idx, [Sa, Ri], late)
    {
      assert idx[0] == 1 && idx[1] == 0;
    }
  }
}
