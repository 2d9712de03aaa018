/**
 * Hand scoring for five-dice poker: the payout table, the hand classifier,
 * the "All Red" side-bet predicate and the pip layout of each face.
 */
module Scoring {

  /** The hand names the game reports; `NoHand` is the game's "none". */
  datatype Category = ThreeKind | Straight | FullHouse | FourKind | FiveKind | NoHand

  /** A scored hand: its category and its payout multiplier. */
  datatype Hand = Hand(category: Category, multiplier: nat)

  /** The payout table; "none" is not in the table and pays 0. */
  function Multiplier(c: Category): nat {
    match c
    case ThreeKind => 1
    case Straight => 3
    case FullHouse => 5
    case FourKind => 7
    case FiveKind => 10
    case NoHand => 0
  }

  lemma MultiplierZeroOnlyForNone(c: Category)
    ensures Multiplier(c) == 0 <==> c == NoHand
    ensures c != NoHand ==> 1 <= Multiplier(c) <= 10
  {
  }

  // ---------------------------------------------------------------------------
  // Reference classification, stated on the multiset of faces
  // ---------------------------------------------------------------------------

  /** How many of the dice show face `v`. */
  function Count(faces: seq<int>, v: int): nat {
    multiset(faces)[v]
  }

  /** Some face occurs exactly `n` times. */
  predicate HasCount(faces: seq<int>, n: nat) {
    exists i :: 0 <= i < |faces| && Count(faces, faces[i]) == n
  }

  /** Five distinct faces forming 1-2-3-4-5 or 2-3-4-5-6. */
  predicate IsStraight(faces: seq<int>) {
    multiset(faces) == multiset{1, 2, 3, 4, 5} || multiset(faces) == multiset{2, 3, 4, 5, 6}
  }

  /** The hand rules, highest priority first. */
  function CategoryOf(faces: seq<int>): Category
    requires |faces| == 5
  {
    if HasCount(faces, 5) then FiveKind
    else if HasCount(faces, 4) then FourKind
    else if HasCount(faces, 3) && HasCount(faces, 2) then FullHouse
    else if IsStraight(faces) then Straight
    else if HasCount(faces, 3) then ThreeKind
    else NoHand
  }

  function HandOf(faces: seq<int>): Hand
    requires |faces| == 5
  {
    Hand(CategoryOf(faces), Multiplier(CategoryOf(faces)))
  }

  // ---------------------------------------------------------------------------
  // Counting facts
  // ---------------------------------------------------------------------------

  /** Two different faces together occur at most as often as there are dice. */
  lemma {:induction false} PairBound(faces: seq<int>, a: int, b: int)
    requires a != b
    ensures Count(faces, a) + Count(faces, b) <= |faces|
  {
    if faces != [] {
      assert faces == [faces[0]] + faces[1..];
      assert multiset(faces) == multiset{faces[0]} + multiset(faces[1..]);
      PairBound(faces[1..], a, b);
    }
  }

  /** No face occurs more often than there are dice. */
  lemma {:induction false} CountBound(faces: seq<int>, v: int)
    ensures Count(faces, v) <= |faces|
  {
    if faces != [] {
      assert faces == [faces[0]] + faces[1..];
      assert multiset(faces) == multiset{faces[0]} + multiset(faces[1..]);
      CountBound(faces[1..], v);
    }
  }

  /** A face occurring `n` times gives `HasCount(faces, n)`. */
  lemma CountWitness(faces: seq<int>, v: int)
    requires Count(faces, v) > 0
    ensures HasCount(faces, Count(faces, v))
  {
    assert v in multiset(faces);
    var i :| 0 <= i < |faces| && faces[i] == v;
  }

  // ---------------------------------------------------------------------------
  // compute_hand
  // ---------------------------------------------------------------------------

  /**
   * Counts the faces into a map, takes the two largest counts (the first two
   * entries of the counts sorted in descending order) and decides the hand by
   * testing five of a kind, four of a kind, full house, straight and three of
   * a kind, in that order. Comparing the sorted faces against [1, 2, 3, 4, 5] or
   * [2, 3, 4, 5, 6] is comparing multisets.
   */
  method ComputeHand(faces: seq<int>) returns (h: Hand)
    requires |faces| == 5
    ensures h == HandOf(faces)
  {
    var counts := CountFaces(faces);
    var first, second, kFirst, kSecond := TopTwoCounts(faces, counts);
    CategoryByCounts(faces, counts, first, second, kFirst, kSecond);
    if first == 5 {
      h := Hand(FiveKind, Multiplier(FiveKind));
    } else if first == 4 {
      h := Hand(FourKind, Multiplier(FourKind));
    } else if first == 3 && second == 2 {
      h := Hand(FullHouse, Multiplier(FullHouse));
    } else if |counts| == 5 && IsStraight(faces) {
      h := Hand(Straight, Multiplier(Straight));
    } else if first == 3 {
      h := Hand(ThreeKind, Multiplier(ThreeKind));
    } else {
      h := Hand(NoHand, 0);
    }
  }

  /** The hand rules restated on the two largest counts and the number of distinct faces. */
  lemma CategoryByCounts(faces: seq<int>, counts: map<int, nat>, first: nat, second: nat, kFirst: int, kSecond: int)
    requires |faces| == 5 && CountsOf(faces, counts) && TopTwo(counts, first, second, kFirst, kSecond)
    ensures CategoryOf(faces) ==
              if first == 5 then FiveKind
              else if first == 4 then FourKind
              else if first == 3 && second == 2 then FullHouse
              else if |counts| == 5 && IsStraight(faces) then Straight
              else if first == 3 then ThreeKind
              else NoHand
  {
    TopCount(faces, counts, first, second, kFirst, kSecond);
    assert HasCount(faces, 5) <==> first == 5;
    assert first != 5 ==> (HasCount(faces, 4) <==> first == 4);
    assert first < 4 ==> (HasCount(faces, 3) <==> first == 3);
    if first == 3 {
      TopFullHouse(faces, counts, first, second, kFirst, kSecond);
    }
    if IsStraight(faces) {
      StraightHasFiveKeys(faces, counts);
    }
  }

  /** The counting loop of compute_hand: face -> number of dice showing it. */
  method CountFaces(faces: seq<int>) returns (counts: map<int, nat>)
    ensures CountsOf(faces, counts)
  {
    counts := map[];
    for i := 0 to |faces|
      invariant forall v :: v in counts <==> v in faces[..i]
      invariant forall v :: v in counts ==> counts[v] == Count(faces[..i], v)
    {
      var face := faces[i];
      counts := counts[face := (if face in counts then counts[face] else 0) + 1];
      assert faces[..i + 1] == faces[..i] + [face];
    }
    assert faces[..|faces|] == faces;
  }

  /**
   * The first two entries of the counts sorted in descending order, found in
   * one pass over the counts in their insertion order (the first occurrence of
   * each face); `second` is 0 when there is only one distinct face.
   */
  method TopTwoCounts(faces: seq<int>, counts: map<int, nat>)
    returns (first: nat, second: nat, ghost kFirst: int, ghost kSecond: int)
    requires faces != []
    requires forall v :: v in counts <==> v in faces
    ensures TopTwo(counts, first, second, kFirst, kSecond)
  {
    first, second := 0, 0;
    kFirst, kSecond := faces[0], faces[0];
    for i := 0 to |faces|
      invariant second <= first
      invariant forall k :: k in faces[..i] ==> counts[k] <= first
      invariant forall k :: k in faces[..i] && k != kFirst ==> counts[k] <= second
      invariant i > 0 ==> kFirst in faces[..i] && counts[kFirst] == first
      invariant i == 0 ==> first == 0 && second == 0
      invariant second > 0 ==> kSecond in faces[..i] && kSecond != kFirst && counts[kSecond] == second
    {
      var face := faces[i];
      assert faces[..i + 1] == faces[..i] + [face];
      if face !in faces[..i] {
        var c := counts[face];
        if i == 0 || c > first {
          second, kSecond := first, kFirst;
          first, kFirst := c, face;
        } else if c > second {
          second, kSecond := c, face;
        }
      }
    }
    assert faces[..|faces|] == faces;
  }

  /** The counts map holds every face with its number of occurrences. */
  ghost predicate CountsOf(faces: seq<int>, counts: map<int, nat>) {
    && (forall v :: v in counts <==> v in faces)
    && (forall v :: v in counts ==> counts[v] == Count(faces, v))
  }

  /** `first` is the largest count (at `kFirst`), `second` the largest among the other keys. */
  ghost predicate TopTwo(counts: map<int, nat>, first: nat, second: nat, kFirst: int, kSecond: int) {
    && (forall k :: k in counts ==> counts[k] <= first)
    && (forall k :: k in counts && k != kFirst ==> counts[k] <= second)
    && kFirst in counts && counts[kFirst] == first
    && (second > 0 ==> kSecond in counts && kSecond != kFirst && counts[kSecond] == second)
  }

  lemma TopCount(faces: seq<int>, counts: map<int, nat>, first: nat, second: nat, kFirst: int, kSecond: int)
    requires |faces| == 5 && CountsOf(faces, counts) && TopTwo(counts, first, second, kFirst, kSecond)
    ensures first <= 5 && HasCount(faces, first)
    ensures forall n: nat :: HasCount(faces, n) ==> n <= first
  {
    CountBound(faces, kFirst);
    assert kFirst in faces;
    var j :| 0 <= j < |faces| && faces[j] == kFirst;
    assert Count(faces, faces[j]) == first;
    forall n: nat | HasCount(faces, n) ensures n <= first {
      var i :| 0 <= i < |faces| && Count(faces, faces[i]) == n;
      assert counts[faces[i]] <= first;
    }
  }

  lemma TopFullHouse(faces: seq<int>, counts: map<int, nat>, first: nat, second: nat, kFirst: int, kSecond: int)
    requires |faces| == 5 && CountsOf(faces, counts) && TopTwo(counts, first, second, kFirst, kSecond)
    requires first == 3
    ensures (second == 2) == HasCount(faces, 2)
  {
    if second > 0 {
      PairBound(faces, kFirst, kSecond);
    }
    if second == 2 {
      assert kSecond in faces;
      var j :| 0 <= j < |faces| && faces[j] == kSecond;
      assert Count(faces, faces[j]) == 2;
    }
    if HasCount(faces, 2) {
      var i :| 0 <= i < |faces| && Count(faces, faces[i]) == 2;
      assert counts[faces[i]] <= second;
    }
  }

  lemma StraightHasFiveKeys(faces: seq<int>, counts: map<int, nat>)
    requires CountsOf(faces, counts) && IsStraight(faces)
    ensures |counts| == 5
  {
    var keys := if multiset(faces) == multiset{1, 2, 3, 4, 5} then {1, 2, 3, 4, 5} else {2, 3, 4, 5, 6};
    forall v ensures v in counts <==> v in keys {
      assert v in faces <==> v in multiset(faces);
    }
    assert counts.Keys == keys;
  }

  // ---------------------------------------------------------------------------
  // The hand rules, category by category
  // ---------------------------------------------------------------------------

  /** A face seen three or more times is the only face with a count of three or more. */
  lemma OnlyBigCount(faces: seq<int>, v: int)
    requires |faces| == 5 && Count(faces, v) >= 3
    ensures forall n: nat :: HasCount(faces, n) && n >= 3 ==> n == Count(faces, v)
  {
    forall n: nat | HasCount(faces, n) && n >= 3 ensures n == Count(faces, v) {
      var i :| 0 <= i < |faces| && Count(faces, faces[i]) == n;
      if faces[i] != v {
        PairBound(faces, v, faces[i]);
      }
    }
  }

  /** All five faces equal: five of a kind, paying 10. */
  lemma FiveEqual(faces: seq<int>)
    requires |faces| == 5 && forall i :: 0 <= i < 5 ==> faces[i] == faces[0]
    ensures HandOf(faces) == Hand(FiveKind, 10)
  {
    assert faces == [faces[0], faces[0], faces[0], faces[0], faces[0]];
    assert Count(faces, faces[0]) == 5;
  }

  /** Exactly four equal faces: four of a kind, paying 7. */
  lemma FourEqual(faces: seq<int>, v: int)
    requires |faces| == 5 && Count(faces, v) == 4
    ensures HandOf(faces) == Hand(FourKind, 7)
  {
    CountWitness(faces, v);
    OnlyBigCount(faces, v);
  }

  /** Three of one face and two of another: full house, paying 5. */
  lemma ThreeAndPair(faces: seq<int>, a: int, b: int)
    requires |faces| == 5 && Count(faces, a) == 3 && Count(faces, b) == 2
    ensures HandOf(faces) == Hand(FullHouse, 5)
  {
    CountWitness(faces, a);
    CountWitness(faces, b);
    OnlyBigCount(faces, a);
  }

  /** In a straight every face occurs once. */
  lemma StraightCountsOne(faces: seq<int>)
    requires IsStraight(faces)
    ensures forall i :: 0 <= i < |faces| ==> Count(faces, faces[i]) == 1
  {
    forall i | 0 <= i < |faces| ensures Count(faces, faces[i]) == 1 {
      assert faces[i] in multiset(faces);
    }
  }

  /** 1-2-3-4-5 or 2-3-4-5-6 in any order: straight, paying 3. */
  lemma StraightPays(faces: seq<int>)
    requires |faces| == 5 && IsStraight(faces)
    ensures HandOf(faces) == Hand(Straight, 3)
  {
    StraightCountsOne(faces);
  }

  /** Three equal faces and the other two different from each other: three of a kind, paying 1. */
  lemma ThreeNoPair(faces: seq<int>, a: int)
    requires |faces| == 5 && Count(faces, a) == 3
    requires forall i :: 0 <= i < 5 && faces[i] != a ==> Count(faces, faces[i]) == 1
    ensures HandOf(faces) == Hand(ThreeKind, 1)
  {
    CountWitness(faces, a);
    OnlyBigCount(faces, a);
    if IsStraight(faces) {
      StraightCountsOne(faces);
      assert false;
    }
  }

  /**
   * A hand scores nothing exactly when no face occurs more than twice and it is
   * not a straight (one pair, two pairs, or five distinct faces off a
   * straight); a multiplier of 0 means exactly that.
   */
  lemma NothingIff(faces: seq<int>)
    requires |faces| == 5
    ensures CategoryOf(faces) == NoHand
        <==> (forall i :: 0 <= i < 5 ==> Count(faces, faces[i]) <= 2) && !IsStraight(faces)
    ensures HandOf(faces).multiplier == 0 <==> CategoryOf(faces) == NoHand
  {
    MultiplierZeroOnlyForNone(CategoryOf(faces));
    if forall i :: 0 <= i < 5 ==> Count(faces, faces[i]) <= 2 {
      assert !HasCount(faces, 3) && !HasCount(faces, 4) && !HasCount(faces, 5);
    } else {
      var i :| 0 <= i < 5 && Count(faces, faces[i]) > 2;
      CountBound(faces, faces[i]);
      assert HasCount(faces, Count(faces, faces[i]));
    }
  }

  /** HasCount depends only on the multiset of faces. */
  lemma HasCountOrderFree(s: seq<int>, t: seq<int>, n: nat)
    requires multiset(s) == multiset(t)
    ensures HasCount(s, n) ==> HasCount(t, n)
  {
    if HasCount(s, n) {
      var i :| 0 <= i < |s| && Count(s, s[i]) == n;
      assert s[i] in multiset(t);
      var j :| 0 <= j < |t| && t[j] == s[i];
      assert Count(t, t[j]) == n;
    }
  }

  /** The hand depends only on which faces were rolled, not on their order. */
  lemma HandOrderFree(s: seq<int>, t: seq<int>)
    requires |s| == 5 && multiset(s) == multiset(t)
    ensures |t| == 5 && HandOf(s) == HandOf(t)
  {
    assert |multiset(s)| == |multiset(t)|;
    forall n: nat ensures HasCount(s, n) <==> HasCount(t, n) {
      HasCountOrderFree(s, t, n);
      HasCountOrderFree(t, s, n);
    }
  }

  // ---------------------------------------------------------------------------
  // Pip colours and the "All Red" side bet
  // ---------------------------------------------------------------------------

  datatype PipColour = RedPip | BlackPip

  /** Faces 1 and 4 are drawn with red pips, the others with black ones. */
  function PipColourOf(face: int): PipColour {
    if face == 1 || face == 4 then RedPip else BlackPip
  }

  /** The "All Red" side bet: every face is a 1 or a 4. */
  function IsAllRed(faces: seq<int>): (r: bool)
    ensures r <==> forall i :: 0 <= i < |faces| ==> PipColourOf(faces[i]) == RedPip
  {
    forall i :: 0 <= i < |faces| ==> faces[i] == 1 || faces[i] == 4
  }

  /** When every face is a 1 or a 4, the ones and fours account for every die. */
  lemma {:induction false} RedCounts(faces: seq<int>)
    requires IsAllRed(faces)
    ensures Count(faces, 1) + Count(faces, 4) == |faces|
  {
    if faces != [] {
      assert faces == [faces[0]] + faces[1..];
      assert multiset(faces) == multiset{faces[0]} + multiset(faces[1..]);
      assert IsAllRed(faces[1..]) by {
        forall i | 0 <= i < |faces[1..]| ensures faces[1..][i] == 1 || faces[1..][i] == 4 {
          assert faces[1..][i] == faces[i + 1];
        }
      }
      RedCounts(faces[1..]);
    }
  }

  /** Five red faces split between ones and fours, so they are always a full house or better. */
  lemma AllRedIsFullHouseOrBetter(faces: seq<int>)
    requires |faces| == 5 && IsAllRed(faces)
    ensures CategoryOf(faces) in {FullHouse, FourKind, FiveKind}
    ensures HandOf(faces).multiplier >= 5
  {
    RedCounts(faces);
    var big, small := if Count(faces, 1) >= 3 then 1 else 4, if Count(faces, 1) >= 3 then 4 else 1;
    OnlyBigCount(faces, big);
    CountWitness(faces, big);
    if Count(faces, small) > 0 {
      CountWitness(faces, small);
    }
  }

  /** Worked hands from the game's rules: the scoring ones. */
  lemma WinningExamples()
    ensures HandOf([1, 1, 1, 1, 1]) == Hand(FiveKind, 10)
    ensures HandOf([2, 2, 2, 3, 3]) == Hand(FullHouse, 5)
    ensures HandOf([1, 2, 3, 4, 5]) == Hand(Straight, 3)
    ensures HandOf([2, 3, 4, 5, 6]) == Hand(Straight, 3)
  {
    FiveEqual([1, 1, 1, 1, 1]);
    ThreeAndPair([2, 2, 2, 3, 3], 2, 3);
    StraightPays([1, 2, 3, 4, 5]);
    StraightPays([2, 3, 4, 5, 6]);
  }

  /** Worked hand from the game's rules: three of a kind. */
  lemma ThreeKindExample()
    ensures HandOf([1, 1, 1, 2, 3]) == Hand(ThreeKind, 1)
  {
    var t := [1, 1, 1, 2, 3];
    assert multiset(t) == multiset{1, 1, 1, 2, 3};
    ThreeNoPair(t, 1);
  }

  /** Worked hand from the game's rules: five distinct faces off a straight score nothing. */
  lemma NoHandExample()
    ensures HandOf([1, 2, 3, 4, 6]) == Hand(NoHand, 0)
  {
    var n := [1, 2, 3, 4, 6];
    assert multiset(n) == multiset{1, 2, 3, 4, 6};
    assert multiset(n)[6] != multiset{1, 2, 3, 4, 5}[6];
    assert multiset(n)[1] != multiset{2, 3, 4, 5, 6}[1];
    assert forall i :: 0 <= i < 5 ==> Count(n, n[i]) == 1;
    NothingIff(n);
  }

  /** Worked All Red side bets from the game's rules. */
  lemma AllRedExamples()
    ensures IsAllRed([1, 4, 1, 4, 1]) && !IsAllRed([1, 4, 1, 4, 2])
  {
    assert [1, 4, 1, 4, 2][4] == 2;
  }

  // ---------------------------------------------------------------------------
  // Pip layout
  // ---------------------------------------------------------------------------

  /**
   * The cells of the 3x3 pip grid (column, row) drawn for a face; anything
   * outside 1..6 gets the single centre pip.
   */
  function PipsForFace(face: int): (cells: seq<(int, int)>)
    ensures 1 <= face <= 6 ==> |cells| == face
    ensures !(1 <= face <= 6) ==> cells == [(1, 1)]
    ensures forall k :: 0 <= k < |cells| ==> 0 <= cells[k].0 <= 2 && 0 <= cells[k].1 <= 2
    ensures forall k, l :: 0 <= k < l < |cells| ==> cells[k] != cells[l]
    ensures (1, 1) in cells <==> !(1 <= face <= 6) || face % 2 == 1
    ensures forall k :: 0 <= k < |cells| ==> (2 - cells[k].0, 2 - cells[k].1) in cells
  {
    if face == 1 then [(1, 1)]
    else if face == 2 then [(0, 0), (2, 2)]
    else if face == 3 then [(0, 0), (1, 1), (2, 2)]
    else if face == 4 then [(0, 0), (2, 0), (0, 2), (2, 2)]
    else if face == 5 then [(0, 0), (2, 0), (1, 1), (0, 2), (2, 2)]
    else if face == 6 then [(0, 0), (2, 0), (0, 1), (2, 1), (0, 2), (2, 2)]
    else [(1, 1)]
  }
}
