/** The fuzzy matcher: a query matches when its characters appear in order. */
module FuzzyMatch {
  import opened Text

  // ----- Greedy matching

  /** The leftmost places of the query's characters at or after `from`, in order. */
  function Leftmost(candidate: string, query: string, from: nat): Option<seq<nat>>
    requires from <= |candidate|
    decreases |candidate| - from
  {
    if query == "" then Some([])
    else if from == |candidate| then None
    else if candidate[from] != query[0] then Leftmost(candidate, query, from + 1)
    else
      var rest := Leftmost(candidate, query[1..], from + 1);
      if rest.None? then None else Some([from] + rest.value)
  }

  /** `places` embeds the query in the candidate, at or after `from`. */
  ghost predicate Embeds(candidate: string, query: string, places: seq<nat>, from: nat) {
    && |places| == |query|
    && (forall k | 0 <= k < |places| :: from <= places[k] < |candidate| && candidate[places[k]] == query[k])
    && (forall k, l | 0 <= k < l < |places| :: places[k] < places[l])
  }

  /** The query is a subsequence of the candidate. */
  ghost predicate Contains(candidate: string, query: string) {
    exists places :: Embeds(candidate, query, places, 0)
  }

  lemma {:induction false} LeftmostEmbeds(candidate: string, query: string, from: nat)
    requires from <= |candidate|
    ensures var r := Leftmost(candidate, query, from); r.Some? ==> Embeds(candidate, query, r.value, from)
    decreases |candidate| - from
  {
    if query != "" && from < |candidate| {
      if candidate[from] != query[0] {
        LeftmostEmbeds(candidate, query, from + 1);
      } else {
        LeftmostEmbeds(candidate, query[1..], from + 1);
      }
    }
  }

  /** If anything embeds the query, greedy matching does, and no place is further left. */
  lemma {:induction false} LeftmostIsLeast(candidate: string, query: string, places: seq<nat>, from: nat)
    requires from <= |candidate| && Embeds(candidate, query, places, from)
    ensures var r := Leftmost(candidate, query, from);
      r.Some? && |r.value| == |places| && forall k | 0 <= k < |places| :: r.value[k] <= places[k]
    decreases |candidate| - from
  {
    if query != "" {
      assert places[0] < |candidate|;
      if candidate[from] != query[0] {
        LeftmostIsLeast(candidate, query, places, from + 1);
      } else {
        assert Embeds(candidate, query[1..], places[1..], from + 1);
        LeftmostIsLeast(candidate, query[1..], places[1..], from + 1);
        var rest := Leftmost(candidate, query[1..], from + 1).value;
        assert forall k | 0 < k < |places| :: places[k] == places[1..][k - 1];
      }
    }
  }

  /** Greedy matching is complete. */
  lemma {:induction false} GreedyIsComplete(candidate: string, query: string)
    ensures Leftmost(candidate, query, 0).Some? <==> Contains(candidate, query)
  {
    LeftmostEmbeds(candidate, query, 0);
    if places :| Embeds(candidate, query, places, 0) {
      LeftmostIsLeast(candidate, query, places, 0);
    }
  }

  // ----- The score

  /** The byte offset of character `i`. */
  function At(s: string, i: nat): nat
    requires i <= |s|
  {
    ByteLength(s[..i])
  }

  predicate StartsWord(candidate: string, i: nat)
    requires i < |candidate|
  {
    i == 0 || candidate[i - 1] == ' ' || candidate[i - 1] == ':' || candidate[i - 1] == '_' || candidate[i - 1] == '-'
  }

  /** Whether a match at `i` counts as following one at `previous`. */
  predicate Follows(candidate: string, previous: nat, i: nat)
    requires previous < |candidate| && i < |candidate|
  {
    At(candidate, previous) + CharBytes(candidate[i]) == At(candidate, i)
  }

  function Points(candidate: string, previous: Option<nat>, i: nat): (p: int)
    requires i < |candidate| && (previous.Some? ==> previous.value < |candidate|)
    ensures 10 <= p <= 23 && (previous.None? ==> p <= 15)
  {
    10 + (if previous.Some? && Follows(candidate, previous.value, i) then 8 else 0) +
    if StartsWord(candidate, i) then 5 else 0
  }

  function Total(candidate: string, previous: Option<nat>, places: seq<nat>): (t: int)
    requires forall k | 0 <= k < |places| :: places[k] < |candidate|
    requires previous.Some? ==> previous.value < |candidate|
    decreases |places|
  {
    if places == [] then 0
    else Points(candidate, previous, places[0]) + Total(candidate, Some(places[0]), places[1..])
  }

  /** Having matched `places`, what is left to match is `query` from `i` on. */
  ghost predicate Reading(candidate: string, query: string, places: seq<nat>, i: nat)
    requires i <= |candidate| && |places| <= |query|
  {
    Leftmost(candidate, query, 0) == Extended(places, Leftmost(candidate, query[|places|..], i))
  }

  function Extended(places: seq<nat>, more: Option<seq<nat>>): Option<seq<nat>> {
    if more.None? then None else Some(places + more.value)
  }

  lemma {:induction false} ReadingStarts(candidate: string, query: string)
    ensures Reading(candidate, query, [], 0)
  {
    assert query[0..] == query;
    var r := Leftmost(candidate, query, 0);
    assert r.Some? ==> [] + r.value == r.value;
  }

  lemma {:induction false} ReadingNext(candidate: string, query: string, places: seq<nat>, i: nat)
    requires i < |candidate| && |places| < |query| && Reading(candidate, query, places, i)
    ensures if candidate[i] == query[|places|] then Reading(candidate, query, places + [i], i + 1)
            else Reading(candidate, query, places, i + 1)
  {
    var left := query[|places|..];
    assert left[0] == query[|places|] && left[1..] == query[|places| + 1..];
    var rest := Leftmost(candidate, left[1..], i + 1);
    assert rest.Some? ==> places + ([i] + rest.value) == (places + [i]) + rest.value;
  }

  lemma {:induction false} ReadingEnds(candidate: string, query: string, places: seq<nat>, i: nat)
    requires i <= |candidate| && |places| <= |query| && Reading(candidate, query, places, i)
    ensures |places| == |query| ==> Leftmost(candidate, query, 0) == Some(places)
    ensures |places| < |query| && i == |candidate| ==> Leftmost(candidate, query, 0) == None
  {
    if |places| == |query| {
      assert query[|places|..] == "";
      assert places + [] == places;
    }
  }

  /** What the walk has done before it reads character `i`. */
  ghost predicate Walked(candidate: string, query: string, places: seq<nat>, previous: Option<nat>, total: int, i: nat)
    requires i <= |candidate|
  {
    && |places| < |query| && (forall k | 0 <= k < |places| :: places[k] < |candidate|)
    && previous == (if places == [] then None else Some(places[|places| - 1]))
    && total == Total(candidate, None, places)
    && Reading(candidate, query, places, i)
  }

  /** The match is complete. */
  ghost predicate Complete(candidate: string, query: string, places: seq<nat>, total: int) {
    && (forall k | 0 <= k < |places| :: places[k] < |candidate|)
    && Leftmost(candidate, query, 0) == Some(places) && total == Total(candidate, None, places)
  }

  lemma {:induction false} WalkedNext(candidate: string, query: string, places: seq<nat>, previous: Option<nat>,
                                      total: int, i: nat)
    requires i < |candidate| && Walked(candidate, query, places, previous, total, i)
    ensures |places| < |query| && (previous.Some? ==> previous.value < |candidate|)
    ensures candidate[i] != query[|places|] ==> Walked(candidate, query, places, previous, total, i + 1)
    ensures candidate[i] == query[|places|] ==>
      var more, more' := places + [i], total + Points(candidate, previous, i);
      if |more| == |query| then Complete(candidate, query, more, more')
      else Walked(candidate, query, more, Some(i), more', i + 1)
  {
    hide Reading, Leftmost, Points;
    ReadingNext(candidate, query, places, i);
    TotalNext(candidate, None, places, i);
    if candidate[i] == query[|places|] {
      ReadingEnds(candidate, query, places + [i], i + 1);
    }
    hide Total;
  }

  lemma {:induction false} WalkedNone(candidate: string, query: string)
    ensures query != "" ==> Walked(candidate, query, [], None, 0, 0)
    ensures query == "" ==> Complete(candidate, query, [], 0)
  {
    ReadingStarts(candidate, query);
  }

  lemma {:induction false} WalkedAll(candidate: string, query: string, places: seq<nat>, previous: Option<nat>,
                                     total: int)
    requires Walked(candidate, query, places, previous, total, |candidate|)
    ensures !Contains(candidate, query)
  {
    hide Reading, Contains;
    ReadingEnds(candidate, query, places, |candidate|);
    GreedyIsComplete(candidate, query);
  }

  lemma {:induction false} CompleteMeans(candidate: string, query: string, places: seq<nat>, total: int)
    requires Complete(candidate, query, places, total)
    ensures Contains(candidate, query) && Embeds(candidate, query, places, 0)
    ensures Leftmost(candidate, query, 0) == Some(places)
    ensures (forall k | 0 <= k < |places| :: places[k] < |candidate|) && total == Total(candidate, None, places)
  {
    LeftmostEmbeds(candidate, query, 0);
  }

  /** Returns the score and the places that are reported as they are matched. */
  method Walk(candidate: string, query: string) returns (score: Option<int>, places: seq<nat>)
    ensures score.Some? <==> Contains(candidate, query)
    ensures score.Some? ==> Embeds(candidate, query, places, 0) && Leftmost(candidate, query, 0) == Some(places)
    ensures score.Some? && query == "" ==> score.value == 0
    ensures score.Some? && query != "" ==> score.value == Total(candidate, None, places) - ByteLength(candidate) / 8
  {
    hide ByteLength, Points, Contains, Leftmost, Walked, Complete, Total;
    places := [];
    WalkedNone(candidate, query);
    if query == "" {
      CompleteMeans(candidate, query, [], 0);
      return Some(0), [];
    }
    var total: int := 0;
    var previous: Option<nat> := None;
    for i := 0 to |candidate|
      invariant |places| < |query|
      invariant Walked(candidate, query, places, previous, total, i)
    {
      WalkedNext(candidate, query, places, previous, total, i);
      if candidate[i] != query[|places|] {
        continue;
      }
      total := total + Points(candidate, previous, i);
      previous := Some(i);
      places := places + [i];
      if |places| == |query| {
        CompleteMeans(candidate, query, places, total);
        return Some(total - ByteLength(candidate) / 8), places;
      }
    }
    WalkedAll(candidate, query, places, previous, total);
    score := None;
  }

  lemma {:induction false} TotalNext(candidate: string, previous: Option<nat>, places: seq<nat>, i: nat)
    requires (forall k | 0 <= k < |places| :: places[k] < |candidate|) && i < |candidate|
    requires previous.Some? ==> previous.value < |candidate|
    ensures Total(candidate, previous, places + [i]) == Total(candidate, previous, places) +
      Points(candidate, if places == [] then previous else Some(places[|places| - 1]), i)
    decreases |places|
  {
    hide Points;
    if places == [] {
      assert [i][1..] == [];
      assert places + [i] == [i];
    } else {
      assert (places + [i])[1..] == places[1..] + [i];
      TotalNext(candidate, Some(places[0]), places[1..], i);
    }
  }

  /** The score of a query of `n` characters lies between 10 n and 23 n - 8, less an
      eighth of the candidate's length. */
  lemma {:induction false} ScoreBounds(candidate: string, places: seq<nat>)
    requires places != [] && forall k | 0 <= k < |places| :: places[k] < |candidate|
    ensures 10 * |places| <= Total(candidate, None, places) <= 23 * |places| - 8
  {
    hide Points;
    TotalBounds(candidate, Some(places[0]), places[1..]);
  }

  lemma {:induction false} TotalBounds(candidate: string, previous: Option<nat>, places: seq<nat>)
    requires forall k | 0 <= k < |places| :: places[k] < |candidate|
    requires previous.Some? ==> previous.value < |candidate|
    ensures 10 * |places| <= Total(candidate, previous, places) <= 23 * |places|
    decreases |places|
  {
    hide Points;
    if places != [] {
      TotalBounds(candidate, Some(places[0]), places[1..]);
    }
  }

  // ----- Which matches count as consecutive

  lemma {:induction false} ByteLengthSum(a: string, b: string)
    ensures ByteLength(a + b) == ByteLength(a) + ByteLength(b)
    decreases |a|
  {
    if a == "" {
      assert a + b == b;
    } else {
      assert (a + b)[1..] == a[1..] + b;
      ByteLengthSum(a[1..], b);
    }
  }

  /** A match counts as following the previous one exactly when the bytes from the one
      to the other are as many as its own. */
  lemma {:induction false} FollowsMeans(candidate: string, previous: nat, i: nat)
    requires previous < i < |candidate|
    ensures Follows(candidate, previous, i) <==> ByteLength(candidate[previous..i]) == CharBytes(candidate[i])
  {
    hide ByteLength;
    assert candidate[..i] == candidate[..previous] + candidate[previous..i];
    ByteLengthSum(candidate[..previous], candidate[previous..i]);
  }

  lemma {:induction false} AtLeastOneByteEach(s: string)
    ensures ByteLength(s) >= |s|
    ensures (forall i | 0 <= i < |s| :: s[i] < '\U{0080}') ==> ByteLength(s) == |s|
    decreases |s|
  {
    if s != "" {
      AtLeastOneByteEach(s[1..]);
    }
  }

  /** Places in order, inside the candidate. */
  ghost predicate InOrder(candidate: string, places: seq<nat>) {
    && (forall k | 0 <= k < |places| :: places[k] < |candidate|)
    && forall k, l | 0 <= k < l < |places| :: places[k] < places[l]
  }

  /** How many matches are as many bytes after the one before as they have themselves. */
  ghost function Following(candidate: string, places: seq<nat>): nat
    requires InOrder(candidate, places)
  {
    if |places| < 2 then 0
    else
      var n := |places| - 1;
      var follows := ByteLength(candidate[places[n - 1]..places[n]]) == CharBytes(candidate[places[n]]);
      Following(candidate, places[..n]) + if follows then 1 else 0
  }

  /** How many matches are at the start of the candidate or after a space, a colon, an
      underscore or a hyphen. */
  ghost function StartingWords(candidate: string, places: seq<nat>): nat
    requires InOrder(candidate, places)
  {
    if places == [] then 0
    else
      var n := |places| - 1;
      var starts := places[n] == 0 || candidate[places[n] - 1] in {' ', ':', '_', '-'};
      StartingWords(candidate, places[..n]) + if starts then 1 else 0
  }

  lemma {:induction false} LastCounts(candidate: string, places: seq<nat>)
    requires InOrder(candidate, places) && places != []
    ensures var n := |places| - 1;
      && InOrder(candidate, places[..n])
      && Following(candidate, places) ==
           Following(candidate, places[..n]) +
           (if n > 0 && Follows(candidate, places[n - 1], places[n]) then 1 else 0)
      && StartingWords(candidate, places) ==
           StartingWords(candidate, places[..n]) + (if StartsWord(candidate, places[n]) then 1 else 0)
  {
    var n := |places| - 1;
    if n > 0 {
      FollowsMeans(candidate, places[n - 1], places[n]);
    }
    hide ByteLength, CharBytes, Follows;
  }

  /** Every match gives ten points, eight more if it follows the one before, and five more
      at the start of a word. */
  lemma {:induction false} ScoreCounts(candidate: string, places: seq<nat>)
    requires InOrder(candidate, places)
    ensures Total(candidate, None, places) ==
      10 * |places| + 8 * Following(candidate, places) + 5 * StartingWords(candidate, places)
    decreases |places|
  {
    if places != [] {
      LastCounts(candidate, places);
      TotalLast(candidate, places);
      hide InOrder, Total, Follows, StartsWord, Following, StartingWords;
      ScoreCounts(candidate, places[..|places| - 1]);
    }
  }

  lemma {:induction false} TotalLast(candidate: string, places: seq<nat>)
    requires InOrder(candidate, places) && places != []
    ensures var n := |places| - 1;
      Total(candidate, None, places) == Total(candidate, None, places[..n]) + 10 +
        (if n > 0 && Follows(candidate, places[n - 1], places[n]) then 8 else 0) +
        (if StartsWord(candidate, places[n]) then 5 else 0)
  {
    var n := |places| - 1;
    var front := places[..n];
    assert places == front + [places[n]] && (n > 0 ==> front[n - 1] == places[n - 1]);
    hide Total, Follows, StartsWord;
    TotalNext(candidate, None, front, places[n]);
  }

  /** In ASCII text these are the consecutive matches. */
  lemma {:induction false} FollowsInAscii(candidate: string, previous: nat, i: nat)
    requires previous < i < |candidate| && forall k | 0 <= k < |candidate| :: candidate[k] < '\U{0080}'
    ensures Follows(candidate, previous, i) <==> i == previous + 1
  {
    FollowsMeans(candidate, previous, i);
    AtLeastOneByteEach(candidate[previous..i]);
    hide ByteLength;
  }

  /** In other text a consecutive match counts exactly when its character is as wide
      as the one before. */
  lemma {:induction false} FollowsNext(candidate: string, i: nat)
    requires 0 < i < |candidate|
    ensures Follows(candidate, i - 1, i) <==> CharBytes(candidate[i - 1]) == CharBytes(candidate[i])
  {
    FollowsMeans(candidate, i - 1, i);
    var one := candidate[i - 1..i];
    assert one == [candidate[i - 1]] && one[1..] == "";
    assert ByteLength(one) == CharBytes(one[0]) + ByteLength(one[1..]);
  }

  /** All characters have UTF-8 forms of the same length. */
  ghost predicate SameWidth(s: string) {
    forall i, j | 0 <= i < j < |s| :: CharBytes(s[i]) == CharBytes(s[j])
  }

  /** For every two matches, the second counts as following the first exactly when it
      is the next character. */
  ghost predicate FollowsOnlyNext(s: string) {
    forall i, j | 0 <= i < j < |s| :: Follows(s, i, j) <==> j == i + 1
  }

  lemma {:induction false} SameWidthBytes(s: string, width: nat)
    requires forall i | 0 <= i < |s| :: CharBytes(s[i]) == width
    ensures ByteLength(s) == width * |s|
    decreases |s|
  {
    if s != "" {
      SameWidthBytes(s[1..], width);
    }
  }

  lemma {:induction false} SameAsFirst(s: string, i: nat)
    requires i < |s| && forall j | 0 < j < |s| :: CharBytes(s[j - 1]) == CharBytes(s[j])
    ensures CharBytes(s[i]) == CharBytes(s[0])
    decreases i
  {
    if i > 0 {
      SameAsFirst(s, i - 1);
      assert CharBytes(s[i - 1]) == CharBytes(s[i]);
    }
  }

  lemma {:induction false} FollowsInSameWidth(s: string, i: nat, j: nat)
    requires SameWidth(s) && i < j < |s|
    ensures Follows(s, i, j) <==> j == i + 1
  {
    FollowsMeans(s, i, j);
    var between, width := s[i..j], CharBytes(s[j]);
    forall k | 0 <= k < |between|
      ensures CharBytes(between[k]) == width
    {
      assert between[k] == s[i + k];
    }
    SameWidthBytes(between, width);
    hide ByteLength, Follows, SameWidth;
    if j > i + 1 {
      assert width * (j - i) == width + width * (j - i - 1);
      assert width * (j - i - 1) > 0;
    }
  }

  lemma {:induction false} WidthChanges(s: string) returns (j: nat)
    requires !SameWidth(s)
    ensures 0 < j < |s| && CharBytes(s[j - 1]) != CharBytes(s[j])
  {
    if i :| 0 < i < |s| && CharBytes(s[i - 1]) != CharBytes(s[i]) {
      j := i;
    } else {
      forall i | 0 <= i < |s|
        ensures CharBytes(s[i]) == CharBytes(s[0])
      {
        SameAsFirst(s, i);
      }
      assert false;
    }
  }

  /** The bonus is given for exactly the consecutive matches if and only if all
      characters of the candidate have the same width. */
  lemma {:induction false} BonusIsExactWhenSameWidth(candidate: string)
    ensures FollowsOnlyNext(candidate) <==> SameWidth(candidate)
  {
    hide Follows;
    if SameWidth(candidate) {
      forall i, j | 0 <= i < j < |candidate|
        ensures Follows(candidate, i, j) <==> j == i + 1
      {
        FollowsInSameWidth(candidate, i, j);
      }
    } else {
      var j := WidthChanges(candidate);
      FollowsNext(candidate, j);
      assert !Follows(candidate, j - 1, j);
    }
  }

  /** A match that is not consecutive can count as one. */
  lemma {:induction false} SkippedCharacterCounts()
    ensures Follows("ab\U{00E9}", 0, 2)
  {
    var s := "ab\U{00E9}";
    FollowsMeans(s, 0, 2);
    assert s[0..2] == "ab";
    AtLeastOneByteEach("ab");
  }

  // ----- Highlighted ranges

  /** Characters `start` up to but not including `end`. */
  datatype Range = Range(start: nat, end: nat)

  /** Ranges in order, none touching the next. */
  ghost predicate Separate(ranges: seq<Range>, size: nat) {
    && (forall k | 0 <= k < |ranges| :: ranges[k].start < ranges[k].end <= size)
    && (forall k, l | 0 <= k < l < |ranges| :: ranges[k].end < ranges[l].start)
  }

  /** The characters in the ranges. */
  function Spelled(s: string, ranges: seq<Range>): string
    requires forall k | 0 <= k < |ranges| :: ranges[k].start <= ranges[k].end <= |s|
  {
    if ranges == [] then ""
    else
      var n := |ranges| - 1;
      Spelled(s, ranges[..n]) + s[ranges[n].start..ranges[n].end]
  }

  /** Merge one more character into the ranges. */
  function Merged(ranges: seq<Range>, i: nat): seq<Range> {
    if ranges != [] && ranges[|ranges| - 1].end == i
    then ranges[|ranges| - 1 := ranges[|ranges| - 1].(end := i + 1)]
    else ranges + [Range(i, i + 1)]
  }

  lemma {:induction false} MergedKeeps(s: string, ranges: seq<Range>, i: nat)
    requires Separate(ranges, i) && i < |s|
    ensures Separate(Merged(ranges, i), i + 1)
    ensures SpelledIs(s, Merged(ranges, i), Spelled(s, ranges) + [s[i]])
  {
    var merged, n := Merged(ranges, i), |ranges| - 1;
    if ranges != [] && ranges[n].end == i {
      assert merged[..n] == ranges[..n];
      assert s[ranges[n].start..i + 1] == s[ranges[n].start..i] + [s[i]];
      assert Spelled(s, merged) == Spelled(s, ranges[..n]) + s[ranges[n].start..i + 1];
    } else {
      assert merged[..|ranges|] == ranges;
      assert s[i..i + 1] == [s[i]];
    }
  }

  /** The places as ranges, consecutive ones merged. */
  function RangesOf(places: seq<nat>): seq<Range> {
    if places == [] then [] else Merged(RangesOf(places[..|places| - 1]), places[|places| - 1])
  }

  /** What a match of the query highlights. */
  function Highlights(lower: string, query: string): (ranges: seq<Range>)
    ensures forall k | 0 <= k < |ranges| :: ranges[k].start <= ranges[k].end <= |lower|
  {
    var places := Leftmost(lower, query, 0);
    if places.None? then []
    else
      RangesFit(lower, query, places.value);
      RangesOf(places.value)
  }

  lemma {:induction false} RangesFit(lower: string, query: string, places: seq<nat>)
    requires Leftmost(lower, query, 0) == Some(places)
    ensures forall k | 0 <= k < |RangesOf(places)| :: RangesOf(places)[k].start <= RangesOf(places)[k].end <= |lower|
  {
    LeftmostEmbeds(lower, query, 0);
    hide Embeds;
    RangesSpell(lower, query, places);
  }

  /** A byte offset between two characters. */
  predicate IsBoundary(s: string, offset: nat) {
    exists i | 0 <= i <= |s| :: At(s, i) == offset
  }

  /** The ranges of `lower` end, as byte offsets, between characters of `candidate`. */
  predicate EndsFit(candidate: string, lower: string, ranges: seq<Range>)
    requires forall k | 0 <= k < |ranges| :: ranges[k].end <= |lower|
  {
    forall k | 0 <= k < |ranges| :: IsBoundary(candidate, At(lower, ranges[k].end))
  }

  /** The ranges of `lower` start, as byte offsets, between characters of `candidate`. */
  predicate StartsFit(candidate: string, lower: string, ranges: seq<Range>)
    requires forall k | 0 <= k < |ranges| :: ranges[k].start <= |lower|
  {
    forall k | 0 <= k < |ranges| :: IsBoundary(candidate, At(lower, ranges[k].start))
  }

  /** Every character of `lower` that starts inside a character of `candidate` also occurs
      between any boundary before it and itself. */
  predicate Shadowed(candidate: string, lower: string) {
    forall k, i | 0 <= k < i < |lower| && IsBoundary(candidate, At(lower, k)) && !IsBoundary(candidate, At(lower, i)) ::
      lower[i] in lower[k..i]
  }

  lemma {:induction false} RangesSpell(s: string, query: string, places: seq<nat>)
    requires Embeds(s, query, places, 0)
    ensures SpelledIs(s, RangesOf(places), query)
    ensures Separate(RangesOf(places), if places == [] then 0 else places[|places| - 1] + 1)
    decreases |places|
  {
    hide Merged, Spelled;
    if places == [] {
      NoRanges(s);
    } else {
      var n := |places| - 1;
      RangesSpell(s, query[..n], places[..n]);
      var front := RangesOf(places[..n]);
      SeparateUpTo(front, if n == 0 then 0 else places[n - 1] + 1, places[n]);
      hide Separate;
      MergedKeeps(s, front, places[n]);
      assert query == query[..n] + [query[n]];
    }
  }

  /** Highlights are in order, separated, and spell the query. */
  lemma {:induction false} HighlightsSpell(lower: string, query: string)
    ensures Separate(Highlights(lower, query), |lower|)
    ensures Contains(lower, query) ==> SpelledIs(lower, Highlights(lower, query), query)
    ensures !Contains(lower, query) ==> Highlights(lower, query) == []
  {
    GreedyIsComplete(lower, query);
    LeftmostEmbeds(lower, query, 0);
    hide Contains, Leftmost, Spelled, RangesOf;
    if Contains(lower, query) {
      var places := Leftmost(lower, query, 0).value;
      RangesSpell(lower, query, places);
      SeparateUpTo(RangesOf(places), if places == [] then 0 else places[|places| - 1] + 1, |lower|);
    }
  }

  lemma {:induction false} HighlightsFit(candidate: string, lower: string, query: string)
    ensures var ranges := Highlights(lower, query);
      && (KeepsWidths(candidate, lower) ==>
            ByteLength(lower) == ByteLength(candidate) && EndsFit(candidate, lower, ranges))
      && (Shadowed(candidate, lower) && EndsFit(candidate, lower, ranges) ==> StartsFit(candidate, lower, ranges))
      && EndsFit(candidate, lower, []) && StartsFit(candidate, lower, [])
  {
    var ranges := Highlights(lower, query);
    if Shadowed(candidate, lower) && EndsFit(candidate, lower, ranges) {
      ShadowedStartsFit(candidate, lower, query);
    }
    if KeepsWidths(candidate, lower) {
      WidthsKeepBoundaries(candidate, lower, ranges);
    }
  }

  /** The ranges to highlight; `lower` is the candidate in lower case. */
  method MatchedRanges(candidate: string, lower: string, query: string) returns (ranges: seq<Range>)
    ensures Separate(ranges, |lower|)
    ensures forall k | 0 <= k < |ranges| :: ranges[k].start <= ranges[k].end <= |lower|
    ensures EndsFit(candidate, lower, ranges)
    ensures ranges == [] ||
      (query != "" && ByteLength(lower) == ByteLength(candidate) && Spelled(lower, ranges) == query)
    ensures query != "" && ByteLength(lower) == ByteLength(candidate) && Contains(lower, query) ==>
      (ranges != [] <==> EndsFit(candidate, lower, Highlights(lower, query)))
    ensures KeepsWidths(candidate, lower) && query != "" && Contains(lower, query) ==> Spelled(lower, ranges) == query
    ensures ranges == [] || ranges == Highlights(lower, query)
    ensures Shadowed(candidate, lower) ==> StartsFit(candidate, lower, ranges)
  {
    HighlightsSpell(lower, query);
    NoRanges(lower);
    SeparateUpTo(Highlights(lower, query), |lower|, |lower|);
    HighlightsFit(candidate, lower, query);
    hide StartsFit, EndsFit, ByteLength, Contains, Spelled, Separate, Merged, Leftmost, Total, IsBoundary;
    hide KeepsWidths, At, Shadowed;
    if query == "" || ByteLength(lower) != ByteLength(candidate) {
      return [];
    }
    var score, places := Walk(lower, query);
    if score.None? {
      return [];
    }
    ranges := [];
    for k := 0 to |places|
      invariant ranges == RangesOf(places[..k])
    {
      assert places[..k + 1][..k] == places[..k];
      ranges := Merged(ranges, places[k]);
    }
    assert places[..|places|] == places;
    assert ranges != [] by { SpelledNotEmpty(lower, ranges, query); }
    if !EndsFit(candidate, lower, ranges) {
      return [];
    }
  }

  lemma {:induction false} SpelledNotEmpty(s: string, ranges: seq<Range>, text: string)
    requires SpelledIs(s, ranges, text) && text != ""
    ensures ranges != []
  {
  }

  /** Lower case has the same number of characters, each as wide as it was. */
  ghost predicate KeepsWidths(candidate: string, lower: string) {
    |lower| == |candidate| && forall i | 0 <= i < |lower| :: CharBytes(lower[i]) == CharBytes(candidate[i])
  }

  lemma {:induction false} SameOffsets(a: string, b: string)
    requires KeepsWidths(a, b)
    ensures ByteLength(a) == ByteLength(b)
    decreases |a|
  {
    if a != "" {
      SameOffsets(a[1..], b[1..]);
    }
  }

  /** If lower case keeps the characters' widths, every range both starts and ends
      between characters of the candidate, so none is rejected. */
  lemma {:induction false} WidthsKeepBoundaries(candidate: string, lower: string, ranges: seq<Range>)
    requires KeepsWidths(candidate, lower)
    requires forall k | 0 <= k < |ranges| :: ranges[k].start <= ranges[k].end <= |lower|
    ensures ByteLength(lower) == ByteLength(candidate) && EndsFit(candidate, lower, ranges)
    ensures forall k | 0 <= k < |ranges| :: IsBoundary(candidate, At(lower, ranges[k].start))
  {
    SameOffsets(candidate, lower);
    hide ByteLength;
    forall i | 0 <= i <= |lower|
      ensures IsBoundary(candidate, At(lower, i))
    {
      SameOffsets(candidate[..i], lower[..i]);
      assert At(candidate, i) == At(lower, i);
    }
    hide IsBoundary, At;
  }

  // ----- Where ranges start

  /** Place `i` is the first one from `after` on that has its character. */
  predicate FirstFrom(s: string, after: nat, i: nat) {
    after <= i < |s| && s[i] !in s[after..i]
  }

  function PlaceAfter(places: seq<nat>, t: nat, from: nat): nat
    requires t < |places|
  {
    if t == 0 then from else places[t - 1] + 1
  }

  ghost predicate FirstPlaces(s: string, places: seq<nat>, from: nat) {
    forall t | 0 <= t < |places| :: FirstFrom(s, PlaceAfter(places, t, from), places[t])
  }

  lemma {:induction false} FirstFromNext(s: string, after: nat, i: nat)
    requires FirstFrom(s, after + 1, i) && s[after] != s[i]
    ensures FirstFrom(s, after, i)
  {
    assert s[after..i] == [s[after]] + s[after + 1..i];
  }

  /** Greedy matching takes the first place for each character. */
  lemma {:induction false} LeftmostIsFirst(s: string, query: string, from: nat)
    requires from <= |s|
    ensures var r := Leftmost(s, query, from); r.Some? ==> FirstPlaces(s, r.value, from)
    decreases |s| - from
  {
    LeftmostEmbeds(s, query, from);
    hide FirstFrom;
    if query != "" && from < |s| && Leftmost(s, query, from).Some? {
      var places := Leftmost(s, query, from).value;
      if s[from] != query[0] {
        LeftmostIsFirst(s, query, from + 1);
        forall t | 0 <= t < |places|
          ensures FirstFrom(s, PlaceAfter(places, t, from), places[t])
        {
          assert FirstFrom(s, PlaceAfter(places, t, from + 1), places[t]);
          if t == 0 {
            FirstFromNext(s, from, places[0]);
          }
        }
      } else {
        LeftmostIsFirst(s, query[1..], from + 1);
        var rest := places[1..];
        assert FirstFrom(s, from, from) by { FirstHere(s, from); }
        forall t | 0 < t < |places|
          ensures FirstFrom(s, PlaceAfter(places, t, from), places[t])
        {
          assert FirstFrom(s, PlaceAfter(rest, t - 1, from + 1), rest[t - 1]);
        }
      }
    }
  }

  lemma {:induction false} FirstHere(s: string, i: nat)
    requires i < |s|
    ensures FirstFrom(s, i, i)
  {
  }

  function EndBefore(ranges: seq<Range>, k: nat): nat
    requires k < |ranges|
  {
    if k == 0 then 0 else ranges[k - 1].end
  }

  /** Each range starts where its first character occurs first after the range before. */
  ghost predicate FirstStarts(s: string, ranges: seq<Range>) {
    forall k | 0 <= k < |ranges| :: FirstFrom(s, EndBefore(ranges, k), ranges[k].start)
  }

  lemma {:induction false} MergedStartsFirst(s: string, ranges: seq<Range>, i: nat)
    requires FirstStarts(s, ranges)
    requires FirstFrom(s, if ranges == [] then 0 else ranges[|ranges| - 1].end, i)
    ensures FirstStarts(s, Merged(ranges, i))
    ensures Merged(ranges, i) != [] && Merged(ranges, i)[|Merged(ranges, i)| - 1].end == i + 1
  {
    hide FirstFrom;
    var merged := Merged(ranges, i);
    forall k | 0 <= k < |merged|
      ensures FirstFrom(s, EndBefore(merged, k), merged[k].start)
    {
      assert k < |ranges| ==> FirstFrom(s, EndBefore(ranges, k), ranges[k].start);
    }
  }

  lemma {:induction false} RangesStartFirst(s: string, places: seq<nat>)
    requires FirstPlaces(s, places, 0)
    ensures FirstStarts(s, RangesOf(places))
    ensures places == [] ==> RangesOf(places) == []
    ensures places != [] ==>
      RangesOf(places) != [] && RangesOf(places)[|RangesOf(places)| - 1].end == places[|places| - 1] + 1
    decreases |places|
  {
    hide FirstFrom, FirstStarts, Merged;
    if places == [] {
      assert FirstStarts(s, []) by { NoStarts(s); }
    } else {
      var n := |places| - 1;
      forall t | 0 <= t < n
        ensures FirstFrom(s, PlaceAfter(places[..n], t, 0), places[..n][t])
      {
        assert FirstFrom(s, PlaceAfter(places, t, 0), places[t]);
      }
      RangesStartFirst(s, places[..n]);
      assert FirstFrom(s, PlaceAfter(places, n, 0), places[n]);
      MergedStartsFirst(s, RangesOf(places[..n]), places[n]);
    }
  }

  lemma {:induction false} NoStarts(s: string)
    ensures FirstStarts(s, [])
  {
  }

  lemma {:induction false} ShadowedStart(candidate: string, lower: string, k: nat, i: nat)
    requires Shadowed(candidate, lower) && k <= |lower| && IsBoundary(candidate, At(lower, k)) && FirstFrom(lower, k, i)
    ensures IsBoundary(candidate, At(lower, i))
  {
    hide IsBoundary, At;
  }

  /** In a shadowed text no accepted range starts inside a character. */
  lemma {:induction false} ShadowedStartsFit(candidate: string, lower: string, query: string)
    requires Shadowed(candidate, lower) && EndsFit(candidate, lower, Highlights(lower, query))
    ensures StartsFit(candidate, lower, Highlights(lower, query))
  {
    var ranges := Highlights(lower, query);
    LeftmostIsFirst(lower, query, 0);
    if ranges != [] {
      RangesStartFirst(lower, Leftmost(lower, query, 0).value);
    }
    StartIsBoundary(candidate, lower);
    hide Highlights, IsBoundary, At, Leftmost, FirstFrom, Shadowed;
    forall k | 0 <= k < |ranges|
      ensures IsBoundary(candidate, At(lower, ranges[k].start))
    {
      assert FirstFrom(lower, EndBefore(ranges, k), ranges[k].start);
      ShadowedStart(candidate, lower, EndBefore(ranges, k), ranges[k].start);
    }
  }

  lemma {:induction false} StartIsBoundary(candidate: string, lower: string)
    ensures IsBoundary(candidate, At(lower, 0))
  {
    assert candidate[..0] == "" == lower[..0];
    assert At(candidate, 0) == At(lower, 0);
  }

  /** The places from `a` up to but not including `b`. */
  function Between(a: nat, b: nat): seq<nat>
    requires a <= b
  {
    seq(b - a, t requires t >= 0 => a + t)
  }

  lemma {:induction false} LeftmostReads(s: string, from: nat, to: nat, query: string)
    requires from <= to <= |s|
    ensures Leftmost(s, s[from..to] + query, from) == Extended(Between(from, to), Leftmost(s, query, to))
    decreases |s| - from
  {
    var rest := Leftmost(s, query, to);
    if from == to {
      assert s[from..to] + query == query && Between(from, to) == [];
      assert rest.Some? ==> [] + rest.value == rest.value;
    } else {
      LeftmostReads(s, from + 1, to, query);
      assert (s[from..to] + query)[1..] == s[from + 1..to] + query;
      assert Between(from, to) == [from] + Between(from + 1, to);
      assert rest.Some? ==> [from] + (Between(from + 1, to) + rest.value) == Between(from, to) + rest.value;
    }
  }

  lemma {:induction false} LeftmostSkips(s: string, query: string, from: nat, to: nat)
    requires from <= to <= |s| && query != "" && query[0] !in s[from..to]
    ensures Leftmost(s, query, from) == Leftmost(s, query, to)
    decreases |s| - from
  {
    if from < to {
      assert s[from..to] == [s[from]] + s[from + 1..to];
      LeftmostSkips(s, query, from + 1, to);
    }
  }

  lemma {:induction false} RangesAppend(places: seq<nat>, i: nat, j: nat)
    requires i < j
    requires var front := RangesOf(places); front == [] || front[|front| - 1].end < i
    ensures RangesOf(places + Between(i, j)) == RangesOf(places) + [Range(i, j)]
    decreases j
  {
    var all := places + Between(i, j);
    assert all[..|all| - 1] == places + Between(i, j - 1) && all[|all| - 1] == j - 1;
    if i + 1 == j {
      assert places + Between(i, i) == places;
    } else {
      RangesAppend(places, i, j - 1);
    }
  }

  /** What is highlighted by a beginning of the text and an end of it. */
  lemma {:induction false} HighlightsOfEnds(lower: string, k: nat, i: nat)
    requires k < i < |lower| && lower[i] !in lower[k..i]
    ensures Highlights(lower, lower[..k] + lower[i..]) ==
      (if k == 0 then [] else [Range(0, k)]) + [Range(i, |lower|)]
  {
    var n := |lower|;
    assert lower[..k] == lower[0..k] && lower[i..] + "" == lower[i..] && lower[i..n] == lower[i..];
    LeftmostReads(lower, 0, k, lower[i..]);
    LeftmostSkips(lower, lower[i..], k, i);
    LeftmostReads(lower, i, n, "");
    assert Between(i, n) + [] == Between(i, n);
    assert Leftmost(lower, lower[..k] + lower[i..], 0) == Some(Between(0, k) + Between(i, n));
    hide Leftmost;
    if k > 0 {
      RangesAppend([], 0, k);
      assert [] + Between(0, k) == Between(0, k) && [] + [Range(0, k)] == [Range(0, k)];
    }
    RangesAppend(Between(0, k), i, n);
  }

  /** For a candidate whose lower case is as long, every accepted range of every query
      starts between characters if and only if the text is shadowed. */
  lemma {:induction false} StartsFitExactly(candidate: string, lower: string)
    requires ByteLength(lower) == ByteLength(candidate)
    ensures Shadowed(candidate, lower) <==>
      forall query | EndsFit(candidate, lower, Highlights(lower, query)) ::
        StartsFit(candidate, lower, Highlights(lower, query))
  {
    hide Highlights, IsBoundary, At, EndsFit, StartsFit;
    if Shadowed(candidate, lower) {
      forall query | EndsFit(candidate, lower, Highlights(lower, query)) {
        ShadowedStartsFit(candidate, lower, query);
      }
    } else {
      var k: nat, i: nat :| k < i < |lower| && IsBoundary(candidate, At(lower, k)) &&
        !IsBoundary(candidate, At(lower, i)) && lower[i] !in lower[k..i];
      EndsStartInside(candidate, lower, k, i);
    }
  }

  lemma {:induction false} EndsStartInside(candidate: string, lower: string, k: nat, i: nat)
    requires ByteLength(lower) == ByteLength(candidate) && k < i < |lower| && lower[i] !in lower[k..i]
    requires IsBoundary(candidate, At(lower, k)) && !IsBoundary(candidate, At(lower, i))
    ensures var ranges := Highlights(lower, lower[..k] + lower[i..]);
      EndsFit(candidate, lower, ranges) && !StartsFit(candidate, lower, ranges)
  {
    HighlightsOfEnds(lower, k, i);
    EndIsBoundary(candidate, lower);
    hide Highlights, IsBoundary, At, ByteLength;
    var ranges := Highlights(lower, lower[..k] + lower[i..]);
    assert ranges[|ranges| - 1] == Range(i, |lower|);
  }

  lemma {:induction false} EndIsBoundary(candidate: string, lower: string)
    requires ByteLength(lower) == ByteLength(candidate)
    ensures IsBoundary(candidate, At(lower, |lower|))
  {
    assert candidate[..|candidate|] == candidate && lower[..|lower|] == lower;
    assert At(candidate, |candidate|) == At(lower, |lower|);
  }

  /** Two capital I with a dot and a Kelvin sign, and the same in lower case, where each I
      has become two characters. */
  const DOTTED := "\U{0130}\U{0130}\U{212A}"
  const DOTTED_LOWER := "i\U{0307}i\U{0307}k"

  lemma {:induction false} DottedOffsets()
    ensures ByteLength(DOTTED) == 7 && !IsBoundary(DOTTED, 6)
  {
    AtStarts(DOTTED);
    AtNext(DOTTED, 0);
    AtNext(DOTTED, 1);
    AtNext(DOTTED, 2);
    hide At, ByteLength;
    assert At(DOTTED, 0) != 6 && At(DOTTED, 1) != 6 && At(DOTTED, 2) != 6 && At(DOTTED, 3) != 6;
  }

  lemma {:induction false} DottedLowerOffsets()
    ensures ByteLength(DOTTED_LOWER) == 7 && At(DOTTED_LOWER, 4) == 6
  {
    AtStarts(DOTTED_LOWER);
    AtNext(DOTTED_LOWER, 0);
    AtNext(DOTTED_LOWER, 1);
    AtNext(DOTTED_LOWER, 2);
    AtNext(DOTTED_LOWER, 3);
    AtNext(DOTTED_LOWER, 4);
    hide At, ByteLength;
  }

  /** The k of this text is highlighted, and starts inside the last character. */
  lemma {:induction false} StartInsideCharacter()
    ensures var ranges := Highlights(DOTTED_LOWER, "k");
      && ranges == [Range(4, 5)] && ByteLength(DOTTED_LOWER) == ByteLength(DOTTED)
      && EndsFit(DOTTED, DOTTED_LOWER, ranges) && !StartsFit(DOTTED, DOTTED_LOWER, ranges)
  {
    DottedOffsets();
    DottedLowerOffsets();
    StartIsBoundary(DOTTED, DOTTED_LOWER);
    assert DOTTED_LOWER[..0] + DOTTED_LOWER[4..] == "k" && [] + [Range(4, 5)] == [Range(4, 5)];
    assert DOTTED_LOWER[4] !in DOTTED_LOWER[0..4];
    hide Highlights, IsBoundary, At, ByteLength, EndsFit, StartsFit;
    HighlightsOfEnds(DOTTED_LOWER, 0, 4);
    EndsStartInside(DOTTED, DOTTED_LOWER, 0, 4);
  }

  lemma {:induction false} AtStarts(s: string)
    ensures At(s, 0) == 0 && At(s, |s|) == ByteLength(s)
  {
    assert s[..|s|] == s;
  }

  lemma {:induction false} AtNext(s: string, i: nat)
    requires i < |s|
    ensures At(s, i + 1) == At(s, i) + CharBytes(s[i])
  {
    assert s[..i + 1] == s[..i] + [s[i]];
    ByteLengthSum(s[..i], [s[i]]);
    assert [s[i]][1..] == "";
  }

  ghost predicate SpelledIs(s: string, ranges: seq<Range>, text: string) {
    (forall k | 0 <= k < |ranges| :: ranges[k].start <= ranges[k].end <= |s|) && Spelled(s, ranges) == text
  }

  lemma {:induction false} NoRanges(s: string)
    ensures Separate([], 0) && Separate([], |s|) && SpelledIs(s, [], "")
  {
  }

  lemma {:induction false} SeparateUpTo(ranges: seq<Range>, a: nat, b: nat)
    requires Separate(ranges, a) && a <= b
    ensures Separate(ranges, b) && forall k | 0 <= k < |ranges| :: ranges[k].start <= ranges[k].end <= b
  {
  }
}
