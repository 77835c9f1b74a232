/** Day 1 of 2023 ("Trebuchet?!"). The calibration value of a line is
    made of the first and the last number in it, where a number is either a
    digit character or a digit spelled out as a word (`one` … `nine`). The
    first number is found by scanning the line from the left with a short
    window of the most recent characters; the last by scanning the reversed
    line for the reversed words. */
module Calibration {
  import opened Results
  import opened Text

  /** The spelled-out digits and their values, in the order they are tried. */
  const NumberWords: seq<(string, nat)> :=
    [("one", 1), ("two", 2), ("three", 3), ("four", 4), ("five", 5),
     ("six", 6), ("seven", 7), ("eight", 8), ("nine", 9)]

  /** The same words spelled backwards, for scanning a reversed line. */
  const ReversedNumberWords: seq<(string, nat)> :=
    [("eno", 1), ("owt", 2), ("eerht", 3), ("ruof", 4), ("evif", 5),
     ("xis", 6), ("neves", 7), ("thgie", 8), ("enin", 9)]

  /** The window keeps this many characters: the length of the longest word. */
  const WindowSize := 5

  /** Every word is non-empty and fits in the window, and stands for a digit. */
  predicate WordsFit(words: seq<(string, nat)>)
  {
    forall k :: 0 <= k < |words| ==> 1 <= |words[k].0| <= WindowSize && words[k].1 < 10
  }

  /** The number words fit the window, and are at least three letters long. */
  lemma NumberWordsFit()
    ensures WordsFit(NumberWords)
    ensures forall k :: 0 <= k < |NumberWords| ==> |NumberWords[k].0| >= 3
  {
  }

  // ---------------------------------------------------------------------
  // What the scan looks for

  /** `w` occurs in `s` ending at index `i`. */
  predicate EndsAt(s: string, i: int, w: string)
  {
    0 <= i < |s| && MatchAt(s, w, i + 1 - |w|)
  }

  /** The value of the first word, in list order, that ends at index `i`. */
  function WordEndingAt(s: string, i: int, words: seq<(string, nat)>): (r: Option<nat>)
    ensures r.None? <==> forall k :: 0 <= k < |words| ==> !EndsAt(s, i, words[k].0)
    decreases |words|
  {
    if |words| == 0 then None
    else if EndsAt(s, i, words[0].0) then Some(words[0].1)
    else
      var r := WordEndingAt(s, i, words[1..]);
      assert forall k :: 1 <= k < |words| ==> words[1..][k - 1] == words[k];
      r
  }

  /** The number that index `i` of `s` completes: the digit there, or else a
      word ending there. */
  function HitAt(s: string, i: nat, words: seq<(string, nat)>): Option<nat>
    requires i < |s|
  {
    if IsDigit(s[i]) then Some(DigitValue(s[i])) else WordEndingAt(s, i, words)
  }

  /** The number completed at the earliest index from `i` on, or
      `InvalidData` when there is none. */
  function FirstHitFrom(s: string, i: nat, words: seq<(string, nat)>): Result<nat>
    requires i <= |s|
    decreases |s| - i
  {
    if i == |s| then Err(InvalidData)
    else match HitAt(s, i, words)
      case Some(v) => Ok(v)
      case None => FirstHitFrom(s, i + 1, words)
  }

  /** The first number in `s`. */
  function FirstNumber(s: string, words: seq<(string, nat)>): Result<nat>
  {
    FirstHitFrom(s, 0, words)
  }

  /** No index before `n` completes a number. */
  predicate NoHitBefore(s: string, n: nat, words: seq<(string, nat)>)
    requires n <= |s|
  {
    forall p :: 0 <= p < n ==> HitAt(s, p, words).None?
  }

  /** The first number is the one completed at the earliest index that
      completes any; there is none exactly when no index completes one. */
  lemma {:induction false} FirstHitFromIsEarliest(s: string, i: nat, words: seq<(string, nat)>)
    requires i <= |s|
    ensures FirstHitFrom(s, i, words).Err? <==> forall p :: i <= p < |s| ==> HitAt(s, p, words).None?
    ensures FirstHitFrom(s, i, words).Ok? ==> exists p :: (i <= p < |s|
      && HitAt(s, p, words) == Some(FirstHitFrom(s, i, words).value)
      && forall q :: i <= q < p ==> HitAt(s, q, words).None?)
    decreases |s| - i
  {
    if i < |s| {
      FirstHitFromIsEarliest(s, i + 1, words);
      if HitAt(s, i, words).Some? {
        assert HitAt(s, i, words) == Some(FirstHitFrom(s, i, words).value);
      } else {
        assert FirstHitFrom(s, i, words) == FirstHitFrom(s, i + 1, words);
        if FirstHitFrom(s, i + 1, words).Ok? {
          var p :| i + 1 <= p < |s| && HitAt(s, p, words) == Some(FirstHitFrom(s, i + 1, words).value)
            && forall q :: i + 1 <= q < p ==> HitAt(s, q, words).None?;
          assert forall q :: i <= q < p ==> HitAt(s, q, words).None?;
        }
      }
    }
  }

  lemma FirstNumberIsEarliest(s: string, words: seq<(string, nat)>)
    ensures FirstNumber(s, words).Err? <==> forall p :: 0 <= p < |s| ==> HitAt(s, p, words).None?
    ensures FirstNumber(s, words).Ok? ==> exists p :: (0 <= p < |s|
      && HitAt(s, p, words) == Some(FirstNumber(s, words).value)
      && NoHitBefore(s, p, words))
  {
    FirstHitFromIsEarliest(s, 0, words);
  }

  /** Every number found stands for a digit. */
  lemma {:induction false} FirstHitFromIsDigit(s: string, i: nat, words: seq<(string, nat)>)
    requires i <= |s| && WordsFit(words)
    ensures FirstHitFrom(s, i, words).Ok? ==> FirstHitFrom(s, i, words).value < 10
    decreases |s| - i
  {
    if i < |s| {
      FirstHitFromIsDigit(s, i + 1, words);
      if !IsDigit(s[i]) {
        WordValueIsDigit(s, i, words);
      }
    }
  }

  lemma {:induction false} WordValueIsDigit(s: string, i: int, words: seq<(string, nat)>)
    requires WordsFit(words)
    ensures WordEndingAt(s, i, words).Some? ==> WordEndingAt(s, i, words).value < 10
    decreases |words|
  {
    if |words| > 0 && !EndsAt(s, i, words[0].0) {
      assert WordsFit(words[1..]) by {
        assert forall k :: 0 <= k < |words| - 1 ==> words[1..][k] == words[k + 1];
      }
      WordValueIsDigit(s, i, words[1..]);
    }
  }

  // ---------------------------------------------------------------------
  // The scan with a window

  /** Where the window over the first `n` characters starts. */
  function WindowStart(n: nat): (start: nat)
    ensures start <= n && n - start <= WindowSize
  {
    if n > WindowSize then n - WindowSize else 0
  }

  /** The window over the first `i + 1` characters contains every word of
      at most its size that ends at `i`. */
  lemma WindowHasWordEndingHere(s: string, i: nat, w: string)
    requires EndsAt(s, i, w) && |w| <= WindowSize
    ensures Contains(s[WindowStart(i + 1)..i + 1], w)
  {
    var start := WindowStart(i + 1);
    var window := s[start..i + 1];
    var j := i + 1 - |w| - start;
    assert window[j..j + |w|] == s[i + 1 - |w|..i + 1];
    assert MatchAt(window, w, j);
  }

  /** A word the window over the first `i + 1` characters contains ends
      somewhere up to `i`. */
  lemma WindowWordEnds(s: string, i: nat, w: string) returns (e: nat)
    requires i < |s| && |w| >= 1
    requires Contains(s[WindowStart(i + 1)..i + 1], w)
    ensures e <= i && EndsAt(s, e, w)
  {
    var start := WindowStart(i + 1);
    var window := s[start..i + 1];
    var j :| MatchAt(window, w, j);
    e := start + j + |w| - 1;
    assert j + |w| <= |window| == i + 1 - start;
    forall t | 0 <= t < |w|
      ensures s[start + j + t] == w[t]
    {
      assert window[j..j + |w|][t] == window[j + t];
    }
    assert s[e + 1 - |w|..e + 1] == w;
  }

  /** A listed word ending at `p` makes `p` complete a number. */
  lemma WordEndingHits(s: string, p: nat, words: seq<(string, nat)>, k: nat)
    requires p < |s| && k < |words| && EndsAt(s, p, words[k].0)
    ensures HitAt(s, p, words).Some?
  {
  }

  /** Once nothing before `i` has completed a number, the window over the
      first `i + 1` characters contains a word exactly when that word ends at
      `i`: a word lying wholly before `i` would already have been found, and
      a word ending at `i` fits in the window. */
  lemma WindowContains(s: string, i: nat, words: seq<(string, nat)>, k: nat)
    requires i < |s| && WordsFit(words) && k < |words|
    requires NoHitBefore(s, i, words)
    ensures Contains(s[WindowStart(i + 1)..i + 1], words[k].0) <==> EndsAt(s, i, words[k].0)
  {
    var w := words[k].0;
    if EndsAt(s, i, w) {
      WindowHasWordEndingHere(s, i, w);
    }
    if Contains(s[WindowStart(i + 1)..i + 1], w) {
      var e := WindowWordEnds(s, i, w);
      WordEndingHits(s, e, words, k);
    }
  }

  /** Pushing the next character and dropping the oldest one beyond five
      moves the window one character on. */
  lemma WindowAdvances(s: string, i: nat, before: string, after: string)
    requires i < |s| && before == s[WindowStart(i)..i]
    requires after == if |before + [s[i]]| > WindowSize then (before + [s[i]])[1..] else before + [s[i]]
    ensures after == s[WindowStart(i + 1)..i + 1]
  {
    assert before + [s[i]] == s[WindowStart(i)..i + 1];
  }

  /** A digit at `i`, the first index completing a number, is the first number. */
  lemma DigitHit(s: string, i: nat, words: seq<(string, nat)>)
    requires i < |s| && IsDigit(s[i])
    ensures FirstHitFrom(s, i, words) == Ok(DigitValue(s[i]))
  {
  }

  /** A word ending at `i`, the first index completing a number, gives the
      first number. */
  lemma WordHit(s: string, i: nat, words: seq<(string, nat)>)
    requires i < |s| && !IsDigit(s[i]) && WordEndingAt(s, i, words).Some?
    ensures FirstHitFrom(s, i, words) == Ok(WordEndingAt(s, i, words).value)
  {
  }

  /** An index that completes no number is passed over. */
  lemma NoHitAt(s: string, i: nat, words: seq<(string, nat)>)
    requires i < |s| && !IsDigit(s[i]) && NoHitBefore(s, i, words)
    requires forall m :: 0 <= m < |words| ==> !EndsAt(s, i, words[m].0)
    ensures NoHitBefore(s, i + 1, words)
    ensures FirstHitFrom(s, i + 1, words) == FirstHitFrom(s, i, words)
  {
    assert HitAt(s, i, words).None?;
  }

  /** `get_first_number_in_iterator`: walks the characters, returning at the
      first digit, and otherwise adds the character to a window of the last
      five characters and returns the value of the first word, in list order,
      that the window contains; fails with `InvalidData` when the characters
      run out. The result is the first number in the string. */
  method FirstNumberIn(input: string, numberStrings: seq<(string, nat)>) returns (r: Result<nat>)
    requires WordsFit(numberStrings)
    ensures r == FirstNumber(input, numberStrings)
  {
    var currNumberString := "";
    var i := 0;
    while i < |input|
      invariant i <= |input|
      invariant currNumberString == input[WindowStart(i)..i]
      invariant NoHitBefore(input, i, numberStrings)
      invariant FirstHitFrom(input, i, numberStrings) == FirstNumber(input, numberStrings)
    {
      var c := input[i];
      if IsDigit(c) {
        DigitHit(input, i, numberStrings);
        return Ok(DigitValue(c));
      }
      ghost var before := currNumberString;
      currNumberString := currNumberString + [c];
      if |currNumberString| > WindowSize {
        currNumberString := currNumberString[1..];
      }
      WindowAdvances(input, i, before, currNumberString);
      for k := 0 to |numberStrings|
        invariant forall m :: 0 <= m < k ==> !EndsAt(input, i, numberStrings[m].0)
      {
        WindowContains(input, i, numberStrings, k);
        if Contains(currNumberString, numberStrings[k].0) {
          FirstWordEndingAt(input, i, numberStrings, k);
          WordHit(input, i, numberStrings);
          return Ok(numberStrings[k].1);
        }
      }
      NoHitAt(input, i, numberStrings);
      i := i + 1;
    }
    return Err(InvalidData);
  }

  /** The word found is the first in list order that ends at `i`. */
  lemma {:induction false} FirstWordEndingAt(s: string, i: int, words: seq<(string, nat)>, k: nat)
    requires k < |words| && EndsAt(s, i, words[k].0)
    requires forall m :: 0 <= m < k ==> !EndsAt(s, i, words[m].0)
    ensures WordEndingAt(s, i, words) == Some(words[k].1)
    decreases k
  {
    if k > 0 {
      assert forall m :: 0 <= m < |words| - 1 ==> words[1..][m] == words[m + 1];
      FirstWordEndingAt(s, i, words[1..], k - 1);
    }
  }

  // ---------------------------------------------------------------------
  // The last number

  /** `w` occurs in `s` starting at index `i`. */
  predicate StartsAt(s: string, i: int, w: string)
  {
    0 <= i < |s| && MatchAt(s, w, i)
  }

  /** The value of the first word, in list order, that starts at index `i`. */
  function WordStartingAt(s: string, i: int, words: seq<(string, nat)>): (r: Option<nat>)
    ensures r.None? <==> forall k :: 0 <= k < |words| ==> !StartsAt(s, i, words[k].0)
    decreases |words|
  {
    if |words| == 0 then None
    else if StartsAt(s, i, words[0].0) then Some(words[0].1)
    else
      var r := WordStartingAt(s, i, words[1..]);
      assert forall k :: 1 <= k < |words| ==> words[1..][k - 1] == words[k];
      r
  }

  /** The number that starts at index `i`: the digit there, or else a word
      beginning there. */
  function StartHitAt(s: string, i: nat, words: seq<(string, nat)>): Option<nat>
    requires i < |s|
  {
    if IsDigit(s[i]) then Some(DigitValue(s[i])) else WordStartingAt(s, i, words)
  }

  /** The number starting at the latest index below `n`, or `InvalidData`
      when there is none. */
  function LastHitBelow(s: string, n: nat, words: seq<(string, nat)>): Result<nat>
    requires n <= |s|
    decreases n
  {
    if n == 0 then Err(InvalidData)
    else match StartHitAt(s, n - 1, words)
      case Some(v) => Ok(v)
      case None => LastHitBelow(s, n - 1, words)
  }

  /** The last number in `s`. */
  function LastNumber(s: string, words: seq<(string, nat)>): Result<nat>
  {
    LastHitBelow(s, |s|, words)
  }

  /** The words with their spelling reversed. */
  function ReverseWords(words: seq<(string, nat)>): (r: seq<(string, nat)>)
    ensures |r| == |words|
  {
    seq(|words|, k requires 0 <= k < |words| => (Reverse(words[k].0), words[k].1))
  }

  lemma ReversedWordsAreReversed()
    ensures ReversedNumberWords == ReverseWords(NumberWords)
  {
    ReverseIs("one", "eno");
    ReverseIs("two", "owt");
    ReverseIs("three", "eerht");
    ReverseIs("four", "ruof");
    ReverseIs("five", "evif");
    ReverseIs("six", "xis");
    ReverseIs("seven", "neves");
    ReverseIs("eight", "thgie");
    ReverseIs("nine", "enin");
  }

  /** A word spelled backwards ends at index `i` of the reversed string
      exactly when the word starts at the mirrored index of the string. */
  lemma EndsAtReverse(s: string, i: nat, w: string)
    requires i < |s|
    ensures EndsAt(Reverse(s), i, Reverse(w)) <==> StartsAt(s, |s| - 1 - i, w)
  {
    var j := |s| - 1 - i;
    if |w| <= i + 1 {
      ReverseSlice(s, i + 1 - |w|, i + 1);
      assert Reverse(s)[i + 1 - |w|..i + 1] == Reverse(s[j..j + |w|]);
      ReverseReverse(s[j..j + |w|]);
      ReverseReverse(w);
    }
  }

  lemma {:induction false} WordEndingAtReverse(s: string, i: nat, words: seq<(string, nat)>)
    requires i < |s|
    ensures WordEndingAt(Reverse(s), i, ReverseWords(words)) == WordStartingAt(s, |s| - 1 - i, words)
    decreases |words|
  {
    if |words| > 0 {
      EndsAtReverse(s, i, words[0].0);
      assert ReverseWords(words)[1..] == ReverseWords(words[1..]);
      WordEndingAtReverse(s, i, words[1..]);
    }
  }

  /** Index `i` of the reversed string completes a number, with the reversed
      words, exactly when the mirrored index of the string starts one. */
  lemma HitAtReverse(s: string, i: nat, words: seq<(string, nat)>)
    requires i < |s|
    ensures HitAt(Reverse(s), i, ReverseWords(words)) == StartHitAt(s, |s| - 1 - i, words)
  {
    assert Reverse(s)[i] == s[|s| - 1 - i];
    WordEndingAtReverse(s, i, words);
  }

  /** Scanning the reversed string forwards for the reversed words meets the
      numbers of the string from its end backwards. */
  lemma {:induction false} FirstHitOfReverse(s: string, i: nat, words: seq<(string, nat)>)
    requires i <= |s|
    ensures FirstHitFrom(Reverse(s), i, ReverseWords(words)) == LastHitBelow(s, |s| - i, words)
    decreases |s| - i
  {
    if i < |s| {
      HitAtReverse(s, i, words);
      FirstHitOfReverse(s, i + 1, words);
      assert |s| - i - 1 == |s| - (i + 1);
    }
  }

  /** The last number is the one starting at the latest index that starts
      any; there is none exactly when no index starts one. */
  lemma {:induction false} LastHitBelowIsLatest(s: string, n: nat, words: seq<(string, nat)>)
    requires n <= |s|
    ensures LastHitBelow(s, n, words).Err? <==> forall p :: 0 <= p < n ==> StartHitAt(s, p, words).None?
    ensures LastHitBelow(s, n, words).Ok? ==> exists p :: (0 <= p < n
      && StartHitAt(s, p, words) == Some(LastHitBelow(s, n, words).value)
      && forall q :: p < q < n ==> StartHitAt(s, q, words).None?)
    decreases n
  {
    if n > 0 {
      var m := n - 1;
      LastHitBelowIsLatest(s, m, words);
      if StartHitAt(s, m, words).Some? {
        assert StartHitAt(s, m, words) == Some(LastHitBelow(s, n, words).value);
      } else {
        assert LastHitBelow(s, n, words) == LastHitBelow(s, m, words);
        if LastHitBelow(s, m, words).Ok? {
          var p :| 0 <= p < m && StartHitAt(s, p, words) == Some(LastHitBelow(s, m, words).value)
            && forall q :: p < q < m ==> StartHitAt(s, q, words).None?;
          assert forall q :: p < q < n ==> StartHitAt(s, q, words).None?;
        }
      }
    }
  }

  /** `get_first_num_in_string`. */
  method FirstNumInString(input: string) returns (r: Result<nat>)
    ensures r == FirstNumber(input, NumberWords)
  {
    NumberWordsFit();
    r := FirstNumberIn(input, NumberWords);
  }

  /** `get_last_num_in_string`: the first number of the reversed line, with
      the reversed words, is the last number of the line. */
  method LastNumInString(input: string) returns (r: Result<nat>)
    ensures r == LastNumber(input, NumberWords)
  {
    var charVec := Reverse(input);
    NumberWordsFit();
    r := FirstNumberIn(charVec, ReversedNumberWords);
    ReversedWordsAreReversed();
    FirstHitOfReverse(input, 0, NumberWords);
  }

  // ---------------------------------------------------------------------
  // Calibration values

  /** The calibration value of a line: ten times its first number plus its
      last number, failing when the line holds no number. */
  function CalibrationOf(line: string): Result<nat>
  {
    var first :- FirstNumber(line, NumberWords);
    var last :- LastNumber(line, NumberWords);
    Ok(first * 10 + last)
  }

  /** A calibration value is a two-digit number. */
  lemma CalibrationInRange(line: string)
    ensures CalibrationOf(line).Ok? ==> CalibrationOf(line).value < 100
  {
    FirstHitFromIsDigit(line, 0, NumberWords);
    FirstHitOfReverse(line, 0, NumberWords);
    ReversedWordsAreReversed();
    FirstHitFromIsDigit(Reverse(line), 0, ReversedNumberWords);
  }

  /** A number completed at `p` starts somewhere. */
  lemma EndHitStarts(s: string, p: nat, words: seq<(string, nat)>) returns (q: nat)
    requires WordsFit(words) && p < |s| && HitAt(s, p, words).Some?
    ensures q < |s| && StartHitAt(s, q, words).Some?
  {
    q := p;
    if !IsDigit(s[p]) {
      var k :| 0 <= k < |words| && EndsAt(s, p, words[k].0);
      var w := words[k].0;
      q := p + 1 - |w|;
      assert StartsAt(s, q, w);
    }
  }

  /** A number starting at `q` is completed somewhere. */
  lemma StartHitEnds(s: string, q: nat, words: seq<(string, nat)>) returns (p: nat)
    requires WordsFit(words) && q < |s| && StartHitAt(s, q, words).Some?
    ensures p < |s| && HitAt(s, p, words).Some?
  {
    p := q;
    if !IsDigit(s[q]) {
      var k :| 0 <= k < |words| && StartsAt(s, q, words[k].0);
      var w := words[k].0;
      p := q + |w| - 1;
      assert EndsAt(s, p, w);
    }
  }

  /** A number ends somewhere exactly when a number starts somewhere: a
      word ending at one index starts at another. */
  lemma HitsAgree(s: string, words: seq<(string, nat)>)
    requires WordsFit(words)
    ensures (exists p :: 0 <= p < |s| && HitAt(s, p, words).Some?)
        <==> (exists p :: 0 <= p < |s| && StartHitAt(s, p, words).Some?)
  {
    if p :| 0 <= p < |s| && HitAt(s, p, words).Some? {
      var q := EndHitStarts(s, p, words);
    }
    if q :| 0 <= q < |s| && StartHitAt(s, q, words).Some? {
      var p := StartHitEnds(s, q, words);
    }
  }

  /** The first and the last lookup fail together: exactly when no index of
      the line completes a number. */
  lemma FirstAndLastFailTogether(line: string)
    ensures FirstNumber(line, NumberWords).Err? <==> forall p :: 0 <= p < |line| ==> HitAt(line, p, NumberWords).None?
    ensures FirstNumber(line, NumberWords).Err? <==> LastNumber(line, NumberWords).Err?
  {
    NumberWordsFit();
    FirstNumberIsEarliest(line, NumberWords);
    LastHitBelowIsLatest(line, |line|, NumberWords);
    HitsAgree(line, NumberWords);
  }

  /** A line has a calibration value exactly when some index of it completes
      a number. */
  lemma CalibrationFails(line: string)
    ensures CalibrationOf(line).Err? <==> forall p :: 0 <= p < |line| ==> HitAt(line, p, NumberWords).None?
  {
    FirstAndLastFailTogether(line);
  }

  /** None of the number words ends at index `i`. */
  predicate NoNumberWordEndsAt(s: string, i: int)
  {
    && !EndsAt(s, i, "one") && !EndsAt(s, i, "two") && !EndsAt(s, i, "three")
    && !EndsAt(s, i, "four") && !EndsAt(s, i, "five") && !EndsAt(s, i, "six")
    && !EndsAt(s, i, "seven") && !EndsAt(s, i, "eight") && !EndsAt(s, i, "nine")
  }

  /** A word of two letters or more that ends at `i` ends with the two
      characters before and at `i`. */
  lemma EndsAtLastTwo(s: string, i: int, w: string)
    requires |w| >= 2
    ensures EndsAt(s, i, w) ==> i >= 1 && s[i - 1] == w[|w| - 2] && s[i] == w[|w| - 1]
  {
    if EndsAt(s, i, w) {
      assert s[i + 1 - |w|..i + 1][|w| - 2] == s[i - 1];
      assert s[i + 1 - |w|..i + 1][|w| - 1] == s[i];
    }
  }

  /** The last two letters of the number words. */
  const NumberWordEndings: set<(char, char)> :=
    {('n', 'e'), ('w', 'o'), ('e', 'e'), ('u', 'r'), ('v', 'e'), ('i', 'x'), ('e', 'n'), ('h', 't')}

  /** No number word ends at `i` when the characters there do not end one. */
  lemma NoWordEndsAtByLastTwo(s: string, i: int)
    requires i >= 1 && i < |s| ==> (s[i - 1], s[i]) !in NumberWordEndings
    ensures NoNumberWordEndsAt(s, i)
  {
    EndsAtLastTwo(s, i, "one");
    EndsAtLastTwo(s, i, "two");
    EndsAtLastTwo(s, i, "three");
    EndsAtLastTwo(s, i, "four");
    EndsAtLastTwo(s, i, "five");
    EndsAtLastTwo(s, i, "six");
    EndsAtLastTwo(s, i, "seven");
    EndsAtLastTwo(s, i, "eight");
    EndsAtLastTwo(s, i, "nine");
  }

  /** A character that is no digit and ends no number word completes no number. */
  lemma PassedForwardsNoHit(s: string, q: nat)
    requires PassedForwards(s, q)
    ensures HitAt(s, q, NumberWords).None?
  {
    NoWordEndsAtByLastTwo(s, q);
    assert WordEndingAt(s, q, NumberWords).None?;
  }

  /** The `k`-th number word ending at `i`, after none of the earlier ones,
      is the number found there. */
  lemma FirstWordHit(s: string, i: nat, k: nat)
    requires i < |s| && !IsDigit(s[i]) && k < |NumberWords|
    requires EndsAt(s, i, NumberWords[k].0)
    requires forall m :: 0 <= m < k ==> !EndsAt(s, i, NumberWords[m].0)
    ensures FirstHitFrom(s, i, NumberWords) == Ok(NumberWords[k].1)
  {
    FirstWordEndingAt(s, i, NumberWords, k);
  }

  /** None of the number words starts at index `i`. */
  predicate NoNumberWordStartsAt(s: string, i: int)
  {
    && !StartsAt(s, i, "one") && !StartsAt(s, i, "two") && !StartsAt(s, i, "three")
    && !StartsAt(s, i, "four") && !StartsAt(s, i, "five") && !StartsAt(s, i, "six")
    && !StartsAt(s, i, "seven") && !StartsAt(s, i, "eight") && !StartsAt(s, i, "nine")
  }

  /** A word of two letters or more that starts at `i` starts with the two
      characters at and after `i`. */
  lemma StartsAtFirstTwo(s: string, i: int, w: string)
    requires |w| >= 2
    ensures StartsAt(s, i, w) ==> i + 1 < |s| && s[i] == w[0] && s[i + 1] == w[1]
  {
    if StartsAt(s, i, w) {
      assert s[i..i + |w|][0] == s[i];
      assert s[i..i + |w|][1] == s[i + 1];
    }
  }

  /** The first two letters of the number words. */
  const NumberWordBeginnings: set<(char, char)> :=
    {('o', 'n'), ('t', 'w'), ('t', 'h'), ('f', 'o'), ('f', 'i'), ('s', 'i'), ('s', 'e'), ('e', 'i'), ('n', 'i')}

  /** No number word starts at `i` when the characters there do not begin one. */
  lemma NoWordStartsAtByFirstTwo(s: string, i: int)
    requires 0 <= i && i + 1 < |s| ==> (s[i], s[i + 1]) !in NumberWordBeginnings
    ensures NoNumberWordStartsAt(s, i)
  {
    StartsAtFirstTwo(s, i, "one");
    StartsAtFirstTwo(s, i, "two");
    StartsAtFirstTwo(s, i, "three");
    StartsAtFirstTwo(s, i, "four");
    StartsAtFirstTwo(s, i, "five");
    StartsAtFirstTwo(s, i, "six");
    StartsAtFirstTwo(s, i, "seven");
    StartsAtFirstTwo(s, i, "eight");
    StartsAtFirstTwo(s, i, "nine");
  }

  /** A character that is no digit and starts no number word starts no number. */
  lemma PassedBackwardsNoHit(s: string, q: nat)
    requires PassedBackwards(s, q)
    ensures StartHitAt(s, q, NumberWords).None?
  {
    NoWordStartsAtByFirstTwo(s, q);
    assert WordStartingAt(s, q, NumberWords).None?;
  }

  lemma {:induction false} FirstWordStartingAt(s: string, i: int, words: seq<(string, nat)>, k: nat)
    requires k < |words| && StartsAt(s, i, words[k].0)
    requires forall m :: 0 <= m < k ==> !StartsAt(s, i, words[m].0)
    ensures WordStartingAt(s, i, words) == Some(words[k].1)
    decreases k
  {
    if k > 0 {
      assert forall m :: 0 <= m < |words| - 1 ==> words[1..][m] == words[m + 1];
      FirstWordStartingAt(s, i, words[1..], k - 1);
    }
  }

  /** Scanning backwards, the `k`-th number word starting at `n - 1`, after
      none of the earlier ones, is the number found there. */
  lemma LastWordHit(s: string, n: nat, k: nat)
    requires 0 < n <= |s| && !IsDigit(s[n - 1]) && k < |NumberWords|
    requires StartsAt(s, n - 1, NumberWords[k].0)
    requires forall m :: 0 <= m < k ==> !StartsAt(s, n - 1, NumberWords[m].0)
    ensures LastHitBelow(s, n, NumberWords) == Ok(NumberWords[k].1)
  {
    FirstWordStartingAt(s, n - 1, NumberWords, k);
  }

  /** Scanning forwards passes over index `q`: no digit there, and the
      characters ending there end no number word. */
  predicate PassedForwards(s: string, q: nat)
  {
    q < |s| && !IsDigit(s[q]) && (q >= 1 ==> (s[q - 1], s[q]) !in NumberWordEndings)
  }

  /** Scanning backwards passes over index `q`: no digit there, and the
      characters starting there begin no number word. */
  predicate PassedBackwards(s: string, q: nat)
  {
    q < |s| && !IsDigit(s[q]) && (q + 1 < |s| ==> (s[q], s[q + 1]) !in NumberWordBeginnings)
  }

  /** Scanning from `i` reaches `p` when no index in between completes a number. */
  lemma {:induction false} FirstSkip(s: string, i: nat, p: nat, words: seq<(string, nat)>)
    requires i <= p < |s|
    requires forall q :: i <= q < p ==> HitAt(s, q, words).None?
    ensures FirstHitFrom(s, i, words) == FirstHitFrom(s, p, words)
    decreases p - i
  {
    if i < p {
      FirstSkip(s, i + 1, p, words);
    }
  }

  /** The first number of `s` is the `k`-th word when nothing completes a
      number before `p`, no digit is at `p`, and the `k`-th word is the first
      in the table that ends at `p`. */
  lemma FirstNumberIsWord(s: string, p: nat, k: nat)
    requires p < |s| && k < |NumberWords|
    requires NoHitBefore(s, p, NumberWords)
    requires !IsDigit(s[p]) && EndsAt(s, p, NumberWords[k].0)
    requires forall m :: 0 <= m < k ==> !EndsAt(s, p, NumberWords[m].0)
    ensures FirstNumber(s, NumberWords) == Ok(NumberWords[k].1)
  {
    FirstSkip(s, 0, p, NumberWords);
    FirstWordHit(s, p, k);
  }

  /** The same, read off the letters of `s`: no digit before `p` and no two
      letters before `p` that end a number word, and the letters ending at
      `p` end no word earlier in the table. */
  lemma FirstNumberIsWordByLetters(s: string, p: nat, k: nat)
    requires p < |s| && k < |NumberWords|
    requires forall q :: 0 <= q < p ==> PassedForwards(s, q)
    requires !IsDigit(s[p]) && EndsAt(s, p, NumberWords[k].0)
    requires p >= 1
    requires forall m, w :: 0 <= m < k && w == NumberWords[m].0 && |w| >= 2 ==>
      (w[|w| - 2], w[|w| - 1]) != (s[p - 1], s[p])
    ensures FirstNumber(s, NumberWords) == Ok(NumberWords[k].1)
  {
    NumberWordsFit();
    forall q | 0 <= q < p
      ensures HitAt(s, q, NumberWords).None?
    {
      PassedForwardsNoHit(s, q);
    }
    forall m | 0 <= m < k
      ensures !EndsAt(s, p, NumberWords[m].0)
    {
      EndsAtLastTwo(s, p, NumberWords[m].0);
    }
    FirstNumberIsWord(s, p, k);
  }

  /** Scanning backwards from `n` reaches `p + 1` when no index in between
      starts a number. */
  lemma {:induction false} LastSkip(s: string, n: nat, p: nat, words: seq<(string, nat)>)
    requires p < n <= |s|
    requires forall q :: p < q < n ==> StartHitAt(s, q, words).None?
    ensures LastHitBelow(s, n, words) == LastHitBelow(s, p + 1, words)
    decreases n - p
  {
    if p + 1 < n {
      LastSkip(s, n - 1, p, words);
    }
  }

  /** The last number of `s` is the `k`-th word when nothing starts a number
      after `p`, no digit is at `p`, and the `k`-th word is the first in the
      table that starts at `p`. */
  lemma LastNumberIsWord(s: string, p: nat, k: nat)
    requires p < |s| && k < |NumberWords|
    requires forall q :: p < q < |s| ==> StartHitAt(s, q, NumberWords).None?
    requires !IsDigit(s[p]) && StartsAt(s, p, NumberWords[k].0)
    requires forall m :: 0 <= m < k ==> !StartsAt(s, p, NumberWords[m].0)
    ensures LastNumber(s, NumberWords) == Ok(NumberWords[k].1)
  {
    LastSkip(s, |s|, p, NumberWords);
    LastWordHit(s, p + 1, k);
  }

  /** The same, read off the letters of `s`: no digit after `p` and no two
      letters after `p` that begin a number word, and the letters starting
      at `p` begin no word earlier in the table. */
  lemma LastNumberIsWordByLetters(s: string, p: nat, k: nat)
    requires p < |s| && k < |NumberWords|
    requires forall q :: p < q < |s| ==> PassedBackwards(s, q)
    requires !IsDigit(s[p]) && StartsAt(s, p, NumberWords[k].0)
    requires p + 1 < |s|
    requires forall m :: 0 <= m < k && |NumberWords[m].0| >= 2 ==>
      (NumberWords[m].0[0], NumberWords[m].0[1]) != (s[p], s[p + 1])
    ensures LastNumber(s, NumberWords) == Ok(NumberWords[k].1)
  {
    NumberWordsFit();
    forall q | p < q < |s|
      ensures StartHitAt(s, q, NumberWords).None?
    {
      PassedBackwardsNoHit(s, q);
    }
    forall m | 0 <= m < k
      ensures !StartsAt(s, p, NumberWords[m].0)
    {
      StartsAtFirstTwo(s, p, NumberWords[m].0);
    }
    LastNumberIsWord(s, p, k);
  }

  lemma FirstOfExampleOne()
    ensures FirstNumber("two1nine", NumberWords) == Ok(2)
  {
    FirstNumberIsWordByLetters("two1nine", 2, 1);
  }

  lemma LastOfExampleOne()
    ensures LastNumber("two1nine", NumberWords) == Ok(9)
  {
    LastNumberIsWordByLetters("two1nine", 4, 8);
  }

  lemma FirstOfExampleTwo()
    ensures FirstNumber("eighttwothree", NumberWords) == Ok(8)
  {
    FirstNumberIsWordByLetters("eighttwothree", 4, 7);
  }

  lemma LastOfExampleTwo()
    ensures LastNumber("eighttwothree", NumberWords) == Ok(3)
  {
    LastNumberIsWordByLetters("eighttwothree", 8, 2);
  }

  lemma FirstOfExampleThree()
    ensures FirstNumber("abcone2threexyz", NumberWords) == Ok(1)
  {
    FirstNumberIsWordByLetters("abcone2threexyz", 5, 0);
  }

  lemma LastOfExampleThree()
    ensures LastNumber("abcone2threexyz", NumberWords) == Ok(3)
  {
    LastNumberIsWordByLetters("abcone2threexyz", 7, 2);
  }

  lemma FirstOfExampleFour()
    ensures FirstNumber("xtwoone3four", NumberWords) == Ok(2)
  {
    FirstNumberIsWordByLetters("xtwoone3four", 3, 1);
  }

  lemma LastOfExampleFour()
    ensures LastNumber("xtwoone3four", NumberWords) == Ok(4)
  {
    LastNumberIsWordByLetters("xtwoone3four", 8, 3);
  }

  /** The examples the solution is checked against. */
  lemma CalibrationExamples()
    ensures CalibrationOf("two1nine") == Ok(29)
    ensures CalibrationOf("eighttwothree") == Ok(83)
    ensures CalibrationOf("abcone2threexyz") == Ok(13)
    ensures CalibrationOf("xtwoone3four") == Ok(24)
  {
    FirstOfExampleOne();
    LastOfExampleOne();
    FirstOfExampleTwo();
    LastOfExampleTwo();
    FirstOfExampleThree();
    LastOfExampleThree();
    FirstOfExampleFour();
    LastOfExampleFour();
  }

  /** `get_calibration_value`: fails when either lookup fails. */
  method CalibrationValue(input: string) returns (r: Result<nat>)
    ensures r == CalibrationOf(input)
  {
    var first := FirstNumInString(input);
    if first.Err? {
      return Err(first.error);
    }
    var last := LastNumInString(input);
    if last.Err? {
      return Err(last.error);
    }
    r := Ok(first.value * 10 + last.value);
  }

  // ---------------------------------------------------------------------
  // The total

  function Sum(values: seq<nat>): nat
    decreases |values|
  {
    if |values| == 0 then 0 else Sum(values[..|values| - 1]) + values[|values| - 1]
  }

  /** The calibration values of all lines added up, or the failure of the
      first line that has none. */
  function TotalOf(lines: seq<string>): Result<nat>
  {
    assert DefinedUntilError(lines, CalibrationOf);
    var values :- TryMap(lines, CalibrationOf);
    Ok(Sum(values))
  }

  /** One more line: its value is added, or its failure ends the total. */
  lemma TotalOfStep(lines: seq<string>, i: nat)
    requires i < |lines|
    ensures TotalOf(lines[..i]).Ok? && CalibrationOf(lines[i]).Ok? ==>
      TotalOf(lines[..i + 1]) == Ok(TotalOf(lines[..i]).value + CalibrationOf(lines[i]).value)
    ensures TotalOf(lines[..i]).Ok? && CalibrationOf(lines[i]).Err? ==> TotalOf(lines).Err?
  {
    assert DefinedUntilError(lines, CalibrationOf);
    TryMapStep(lines, CalibrationOf, i);
    TryMapErrExtends(lines, CalibrationOf, i + 1);
    if TryMap(lines[..i], CalibrationOf).Ok? && CalibrationOf(lines[i]).Ok? {
      var values := TryMap(lines[..i], CalibrationOf).value;
      assert (values + [CalibrationOf(lines[i]).value])[..|values|] == values;
    }
  }

  /** The loop of `main` over the lines of the input, with `?` on each
      calibration value. */
  method Total(lines: seq<string>) returns (r: Result<nat>)
    ensures r == TotalOf(lines)
  {
    var total := 0;
    assert lines[..0] == [];
    for i := 0 to |lines|
      invariant TotalOf(lines[..i]) == Ok(total)
    {
      var result := CalibrationValue(lines[i]);
      TotalOfStep(lines, i);
      if result.Err? {
        return Err(result.error);
      }
      total := total + result.value;
    }
    assert lines[..|lines|] == lines;
    r := Ok(total);
  }
}
