/**
 Two loops over text: the occurrence counter of core/src/codegen/utils.ts and the string hash of
 core/src/utilities/strings.ts. Text is a sequence of UTF-16 code units.
 */
module Strings {
  type Code = c: int | 0 <= c < 0x1_0000

  type Text = seq<Code>

  // ----- counting occurrences -----

  predicate IsWordCode(c: Code) {
    48 <= c <= 57 || 65 <= c <= 90 || 97 <= c <= 122 || c == 95
  }

  predicate AllWord(word: Text) { forall i | 0 <= i < |word| :: IsWordCode(word[i]) }

  predicate MatchAt(text: Text, word: Text, i: nat) {
    i + |word| <= |text| && text[i..i + |word|] == word
  }

  /** A match with no word character on either side. */
  predicate WholeWordAt(text: Text, word: Text, i: nat) {
    && MatchAt(text, word, i)
    && (i == 0 || !IsWordCode(text[i - 1]))
    && (i + |word| >= |text| || !IsWordCode(text[i + |word|]))
  }

  /** How many positions from `from` on hold a whole-word occurrence. */
  function WholeWords(text: Text, word: Text, from: nat): nat
    decreases |text| - from
  {
    if from >= |text| then 0
    else (if WholeWordAt(text, word, from) then 1 else 0) + WholeWords(text, word, from + 1)
  }

  /** How many positions from `from` on hold a match at all. */
  function Matches(text: Text, word: Text, from: nat): nat
    decreases |text| - from
  {
    if from >= |text| then 0
    else (if MatchAt(text, word, from) then 1 else 0) + Matches(text, word, from + 1)
  }

  /** Starting points of matches that do not overlap, in order, from `from` on. */
  predicate Apart(text: Text, word: Text, from: nat, starts: seq<nat>) {
    && (forall k | 0 <= k < |starts| :: starts[k] >= from && MatchAt(text, word, starts[k]))
    && (forall k | 0 < k < |starts| :: starts[k - 1] + |word| <= starts[k])
  }

  /** Nothing matches between two positions. */
  predicate NoMatch(text: Text, word: Text, from: nat, end: nat) {
    forall i | from <= i < end :: !MatchAt(text, word, i)
  }

  lemma {:induction false} SkipUnmatched(text: Text, word: Text, from: nat, end: nat)
    requires from <= end && NoMatch(text, word, from, end)
    ensures WholeWords(text, word, from) == WholeWords(text, word, end)
    decreases end - from
  {
    if from < end {
      SkipUnmatched(text, word, from + 1, end);
      assert !MatchAt(text, word, from);
    }
  }

  /** Inside a match every left neighbour is a word character, so no whole word starts there. */
  lemma {:induction false} SkipMatched(text: Text, word: Text, i: nat, end: nat)
    requires AllWord(word) && MatchAt(text, word, i) && i < end <= i + |word|
    ensures WholeWords(text, word, i) == (if WholeWordAt(text, word, i) then 1 else 0) + WholeWords(text, word, end)
    decreases end
  {
    if end > i + 1 {
      SkipMatched(text, word, i, end - 1);
      assert text[end - 2] == text[i..i + |word|][end - 2 - i];
      assert !WholeWordAt(text, word, end - 1);
    }
  }

  /** The least match from a position on, or none. */
  method IndexOf(text: Text, word: Text, from: nat) returns (r: int)
    requires 0 < |word|
    ensures r == -1 ==> NoMatch(text, word, from, |text|)
    ensures r != -1 ==> from <= r && MatchAt(text, word, r) && NoMatch(text, word, from, r)
  {
    var i := from;
    while i + |word| <= |text|
      invariant from <= i && NoMatch(text, word, from, i)
    {
      if text[i..i + |word|] == word {
        return i;
      }
      i := i + 1;
    }
    r := -1;
  }

  /** No list of matches that do not overlap is longer than one that always takes the next. */
  lemma {:induction false} NextIsBest(text: Text, word: Text, from: nat, first: nat, starts: seq<nat>)
    requires 0 < |word| && from <= first && NoMatch(text, word, from, first) && Apart(text, word, from, starts) && starts != []
    ensures Apart(text, word, first + |word|, starts[1..])
  {
    assert MatchAt(text, word, starts[0]);
    assert starts[0] >= first;
    forall k | 1 <= k < |starts|
      ensures starts[k] >= first + |word|
    {
      Increasing(text, word, from, starts, k);
    }
  }

  lemma {:induction false} Increasing(text: Text, word: Text, from: nat, starts: seq<nat>, k: nat)
    requires Apart(text, word, from, starts) && 1 <= k < |starts|
    ensures starts[0] + |word| <= starts[k]
  {
    if k > 1 {
      Increasing(text, word, from, starts, k - 1);
    }
  }

  ghost predicate AtMost(text: Text, word: Text, from: nat, n: int) {
    forall starts | Apart(text, word, from, starts) :: |starts| <= n
  }

  lemma {:induction false} OneMoreAtMost(text: Text, word: Text, from: nat, first: nat, n: int)
    requires 0 < |word| && from <= first && NoMatch(text, word, from, first) && AtMost(text, word, first + |word|, n)
    ensures AtMost(text, word, from, n + 1)
  {
    forall starts | Apart(text, word, from, starts)
      ensures |starts| <= n + 1
    {
      if starts != [] {
        NextIsBest(text, word, from, first, starts);
        assert Apart(text, word, first + |word|, starts[1..]);
        assert |starts[1..]| <= n;
      } else {
        assert Apart(text, word, first + |word|, []);
        assert |starts| == 0;
      }
    }
  }

  lemma {:induction false} NothingLeft(text: Text, word: Text, from: nat)
    requires 0 < |word| && NoMatch(text, word, from, |text|)
    ensures AtMost(text, word, from, 0)
  {
    forall starts | Apart(text, word, from, starts)
      ensures |starts| <= 0
    {
      assert |starts| > 0 ==> MatchAt(text, word, starts[0]);
    }
  }

  /** Whole words counted up to `i`, and those left. */
  predicate CountedWhole(text: Text, word: Text, i: nat, count: nat) {
    count + WholeWords(text, word, i) == WholeWords(text, word, 0)
  }

  /** Matches taken up to `i`, apart, with no better way to have come here. */
  ghost predicate TakenApart(text: Text, word: Text, i: nat, starts: seq<nat>) {
    && Apart(text, word, 0, starts)
    && (forall k | 0 <= k < |starts| :: starts[k] + |word| <= i)
    && Reaches(text, word, i, |starts|)
  }

  /** What holds of the rest, with what is taken, holds of the whole. */
  ghost predicate Reaches(text: Text, word: Text, from: nat, taken: nat) {
    forall n | AtMost(text, word, from, n) :: AtMost(text, word, 0, taken + n)
  }

  lemma {:induction false} CountOneWhole(text: Text, word: Text, i: nat, at: nat, count: nat)
    requires 0 < |word| && AllWord(word) && CountedWhole(text, word, i, count)
    requires i <= at && MatchAt(text, word, at) && NoMatch(text, word, i, at)
    ensures CountedWhole(text, word, at + |word|, count + if WholeWordAt(text, word, at) then 1 else 0)
  {
    SkipUnmatched(text, word, i, at);
    SkipMatched(text, word, at, at + |word|);
  }

  lemma {:induction false} TakeOne(text: Text, word: Text, i: nat, at: nat, starts: seq<nat>)
    requires 0 < |word| && TakenApart(text, word, i, starts)
    requires i <= at && MatchAt(text, word, at) && NoMatch(text, word, i, at)
    ensures TakenApart(text, word, at + |word|, starts + [at])
  {
    hide AtMost;
    var next := at + |word|;
    forall n | AtMost(text, word, next, n)
      ensures AtMost(text, word, 0, |starts + [at]| + n)
    {
      ReachesOneMore(text, word, i, at, |starts|, n);
    }
  }

  lemma {:induction false} ReachesOneMore(text: Text, word: Text, i: nat, at: nat, taken: nat, n: int)
    requires 0 < |word| && Reaches(text, word, i, taken) && i <= at && NoMatch(text, word, i, at)
    requires AtMost(text, word, at + |word|, n)
    ensures AtMost(text, word, 0, taken + 1 + n)
  {
    OneMoreAtMost(text, word, i, at, n);
    var more := n + 1;
    assert AtMost(text, word, i, more);
    assert AtMost(text, word, 0, taken + more);
  }

  lemma {:induction false} NoneLeft(text: Text, word: Text, i: nat, count: nat)
    requires NoMatch(text, word, i, |text|) && CountedWhole(text, word, i, count)
    ensures count == WholeWords(text, word, 0)
  {
    if i < |text| {
      SkipUnmatched(text, word, i, |text|);
    }
  }

  lemma {:induction false} TookAll(text: Text, word: Text, i: nat, starts: seq<nat>)
    requires 0 < |word| && NoMatch(text, word, i, |text|) && TakenApart(text, word, i, starts)
    ensures BestApart(text, word, |starts|)
  {
    NothingLeft(text, word, i);
    assert AtMost(text, word, 0, |starts| + 0);
  }

  /** The most matches that fit without overlap, and they do fit. */
  ghost predicate BestApart(text: Text, word: Text, n: nat) {
    AtMost(text, word, 0, n) && exists starts :: Apart(text, word, 0, starts) && |starts| == n
  }

  /**
   The counter. A term of word characters only is counted wherever it stands as a whole word; any
   other term as often as it fits without overlap; a single character wherever it occurs.
   */
  method CountWordOccurrence(text: Text, word: Text) returns (count: nat)
    ensures |word| == 0 ==> count == 0
    ensures |word| == 1 ==> count == Matches(text, word, 0)
    ensures |word| > 1 && AllWord(word) ==> count == WholeWords(text, word, 0)
    ensures |word| > 1 && !AllWord(word) ==> BestApart(text, word, count)
  {
    if |word| == 0 || |word| > |text| {
      if |word| > 0 {
        TooShort(text, word);
      }
      return 0;
    }
    if |word| == 1 {
      count := CountCharacter(text, word);
      return;
    }
    var enforce := HasOnlyWordCodes(word);
    count := CountTerm(text, word, enforce);
  }

  /** Match by match, each one skipped whole. */
  method CountTerm(text: Text, word: Text, enforce: bool) returns (count: nat)
    requires |word| > 0 && enforce == AllWord(word)
    ensures enforce ==> count == WholeWords(text, word, 0)
    ensures !enforce ==> BestApart(text, word, count)
  {
    hide AtMost, WholeWords, NoMatch;
    count := 0;
    var i: nat := 0;
    ghost var starts: seq<nat> := [];
    while true
      invariant enforce ==> CountedWhole(text, word, i, count)
      invariant !enforce ==> TakenApart(text, word, i, starts) && |starts| == count
      decreases |text| - i
    {
      var at := IndexOf(text, word, i);
      if at == -1 {
        break;
      }
      if enforce {
        CountOneWhole(text, word, i, at, count);
        var leftOk := at - 1 < 0 || !IsWordCode(text[at - 1]);
        var rightOk := at + |word| >= |text| || !IsWordCode(text[at + |word|]);
        if leftOk && rightOk {
          count := count + 1;
        }
      } else {
        TakeOne(text, word, i, at, starts);
        starts := starts + [at];
        count := count + 1;
      }
      i := at + |word|;
    }
    if enforce {
      NoneLeft(text, word, i, count);
    } else {
      TookAll(text, word, i, starts);
    }
  }

  method CountCharacter(text: Text, word: Text) returns (count: nat)
    requires |word| == 1
    ensures count == Matches(text, word, 0)
  {
    count := 0;
    for i := 0 to |text|
      invariant count + Matches(text, word, i) == Matches(text, word, 0)
    {
      assert MatchAt(text, word, i) <==> text[i] == word[0];
      if text[i] == word[0] {
        count := count + 1;
      }
    }
  }

  method HasOnlyWordCodes(word: Text) returns (r: bool)
    ensures r == AllWord(word)
  {
    r := true;
    for k := 0 to |word|
      invariant r && forall j | 0 <= j < k :: IsWordCode(word[j])
    {
      if !IsWordCode(word[k]) {
        return false;
      }
    }
  }

  lemma {:induction false} TooShort(text: Text, word: Text)
    requires |word| > |text|
    ensures WholeWords(text, word, 0) == 0 && Matches(text, word, 0) == 0
    ensures BestApart(text, word, 0)
  {
    NoneFrom(text, word, 0);
    NothingLeft(text, word, 0);
    assert Apart(text, word, 0, []);
  }

  lemma {:induction false} NoneFrom(text: Text, word: Text, from: nat)
    requires |word| > |text|
    ensures WholeWords(text, word, from) == 0 && Matches(text, word, from) == 0
    decreases |text| - from
  {
    if from < |text| {
      NoneFrom(text, word, from + 1);
    }
  }

  /** A one-letter term is counted inside words too; that is a whole-word count exactly when every match stands alone. */
  lemma {:induction false} OneLetterIsWholeWordIff(text: Text, word: Text, from: nat)
    requires |word| == 1
    ensures Matches(text, word, from) >= WholeWords(text, word, from)
    ensures Matches(text, word, from) == WholeWords(text, word, from) <==>
      forall i | from <= i < |text| && text[i] == word[0] :: WholeWordAt(text, word, i)
    decreases |text| - from
  {
    if from < |text| {
      OneLetterIsWholeWordIff(text, word, from + 1);
      assert MatchAt(text, word, from) <==> text[from] == word[0];
    }
  }

  // ----- the hash -----

  const TWO_31 := 0x8000_0000
  const TWO_32 := 0x1_0000_0000
  const TWO_53 := 0x20_0000_0000_0000

  /** What `<<` sees of a number: its low 32 bits, signed. */
  function ToInt32(x: int): (r: int)
    ensures -TWO_31 <= r < TWO_31
  {
    var low := x % TWO_32;
    if low < TWO_31 then low else low - TWO_32
  }

  function ShiftLeft5(x: int): int { ToInt32(32 * ToInt32(x)) }

  /** The textbook recurrence, reduced at every character. */
  function Djb2(value: Text, seed: int): (r: int)
    ensures 0 <= r < TWO_32
  {
    if value == [] then seed % TWO_32
    else (33 * Djb2(value[..|value| - 1], seed) + value[|value| - 1]) % TWO_32
  }

  lemma {:induction false} Congruent(x: int) returns (k: int)
    ensures ToInt32(x) == x + TWO_32 * k
  {
    k := if x % TWO_32 < TWO_31 then -(x / TWO_32) else -(x / TWO_32) - 1;
  }

  /** One character of the loop, against one of the recurrence. */
  lemma {:induction false} OneCharacter(h: int, d: int, c: Code)
    requires h % TWO_32 == d
    ensures (ShiftLeft5(h) + h + c) % TWO_32 == (33 * d + c) % TWO_32
    ensures -TWO_31 <= ShiftLeft5(h) < TWO_31
  {
    var a := Congruent(h);
    var b := Congruent(32 * ToInt32(h));
    var q := h / TWO_32;
    assert h == d + TWO_32 * q;
    assert ShiftLeft5(h) + h + c == 33 * d + c + TWO_32 * (33 * q + 32 * a + b);
  }

  /** Sums of integers are exact as long as they stay within the integers a double holds. */
  ghost predicate ExactBelow53(add: (int, int) -> int) {
    forall x, y | -TWO_53 <= x + y <= TWO_53 :: add(x, y) == x + y
  }

  /** How far the accumulator can have gone after so many characters. */
  function Reach(seed: int, n: nat): int { (if seed < 0 then -seed else seed) + n * (TWO_31 + 0xFFFF) }

  /** The loop as written, over numbers whose addition may round; short enough text never meets the rounding. */
  method FastHash(value: Text, seed: int, add: (int, int) -> int) returns (r: int)
    requires ExactBelow53(add)
    ensures Reach(seed, |value|) <= TWO_53 ==> r == Djb2(value, seed)
    ensures seed == 5381 && |value| <= 4_194_176 ==> r == Djb2(value, seed)
  {
    var hash := seed;
    for i := 0 to |value|
      invariant Reach(seed, |value|) <= TWO_53 ==> -Reach(seed, i) <= hash <= Reach(seed, i) && hash % TWO_32 == Djb2(value[..i], seed)
    {
      assert value[..i + 1][..i] == value[..i];
      OneCharacter(hash, hash % TWO_32, value[i]);
      ghost var before := hash;
      hash := add(add(ShiftLeft5(hash), hash), value[i]);
      if Reach(seed, |value|) <= TWO_53 {
        assert hash == ShiftLeft5(before) + before + value[i];
      }
    }
    assert value[..|value|] == value;
    r := hash % TWO_32;
  }
}
