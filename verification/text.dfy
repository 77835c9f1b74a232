/** The parts of Rust's `str` API that the puzzle solutions rely on:
    `contains`, `split` (with a character or a string pattern), the
    decimal `parse::<u32>` and `format!("{}", n)`, and `chars().rev()`.
    Strings are sequences of characters; the inputs are ASCII, so a
    character and a byte are the same thing here. */
module Text {
  import opened Results

  /** `pat` occurs in `s` starting at index `j`. */
  predicate MatchAt(s: string, pat: string, j: int)
  {
    0 <= j && j + |pat| <= |s| && s[j..j + |pat|] == pat
  }

  lemma MatchAtTail(s: string, pat: string)
    requires |s| > 0
    ensures forall j :: j >= 0 ==> (MatchAt(s[1..], pat, j) <==> MatchAt(s, pat, j + 1))
    ensures forall j :: j >= 1 ==> (MatchAt(s, pat, j) <==> MatchAt(s[1..], pat, j - 1))
  {
    forall j | j >= 0
      ensures MatchAt(s[1..], pat, j) <==> MatchAt(s, pat, j + 1)
    {
      if 0 <= j && j + |pat| <= |s| - 1 {
        assert s[1..][j..j + |pat|] == s[j + 1..j + 1 + |pat|];
      }
    }
  }

  lemma MatchAtPrefix(s: string, pat: string, k: nat)
    requires k <= |s|
    ensures forall j :: MatchAt(s[..k], pat, j) ==> MatchAt(s, pat, j)
  {
    forall j | MatchAt(s[..k], pat, j)
      ensures MatchAt(s, pat, j)
    {
      assert s[..k][j..j + |pat|] == s[j..j + |pat|];
    }
  }

  /** `str::contains`: `pat` occurs somewhere in `s`. */
  function Contains(s: string, pat: string): (r: bool)
    ensures r <==> exists j :: MatchAt(s, pat, j)
    decreases |s|
  {
    if |s| < |pat| then false
    else if s[..|pat|] == pat then assert MatchAt(s, pat, 0); true
    else
      MatchAtTail(s, pat);
      assert !MatchAt(s, pat, 0);
      Contains(s[1..], pat)
  }

  /** The index of the leftmost occurrence of `pat` in `s`, if any. */
  function FindFirst(s: string, pat: string): (r: Option<nat>)
    requires |pat| > 0
    ensures r.Some? ==> MatchAt(s, pat, r.value)
    ensures r.Some? ==> forall j :: 0 <= j < r.value ==> !MatchAt(s, pat, j)
    ensures r.None? ==> forall j :: !MatchAt(s, pat, j)
    decreases |s|
  {
    if |s| < |pat| then None
    else if s[..|pat|] == pat then Some(0)
    else
      MatchAtTail(s, pat);
      match FindFirst(s[1..], pat)
      case None => None
      case Some(k) => Some(k + 1)
  }

  /** `parts` written out with `sep` between neighbours (`[T]::join`). */
  function Join(parts: seq<string>, sep: string): string
  {
    if |parts| == 0 then ""
    else if |parts| == 1 then parts[0]
    else parts[0] + sep + Join(parts[1..], sep)
  }

  lemma JoinCons(p: string, rest: seq<string>, sep: string)
    requires |rest| >= 1
    ensures Join([p] + rest, sep) == p + sep + Join(rest, sep)
  {
    assert ([p] + rest)[1..] == rest;
  }

  lemma JoinThree(a: string, b: string, c: string, sep: string)
    ensures Join([a, b, c], sep) == a + sep + b + sep + c
  {
    JoinCons(a, [b, c], sep);
    JoinCons(b, [c], sep);
    assert [a] + [b, c] == [a, b, c];
    assert [b] + [c] == [b, c];
  }

  lemma {:induction false} JoinSnoc(parts: seq<string>, last: string, sep: string)
    requires |parts| >= 1
    ensures Join(parts + [last], sep) == Join(parts, sep) + sep + last
    decreases |parts|
  {
    if |parts| == 1 {
      assert (parts + [last])[1..] == [last];
    } else {
      assert (parts + [last])[1..] == parts[1..] + [last];
      JoinSnoc(parts[1..], last, sep);
    }
  }

  /** Each part followed by `sep`, as a string built by appending
      `part + sep` for every part in turn. */
  function Terminated(parts: seq<string>, sep: string): string
    decreases |parts|
  {
    if |parts| == 0 then "" else Terminated(parts[..|parts| - 1], sep) + parts[|parts| - 1] + sep
  }

  /** Appending a separator after every part gives the joined parts with one
      separator too many at the end. */
  lemma {:induction false} TerminatedJoin(parts: seq<string>, sep: string)
    requires |parts| >= 1
    ensures Terminated(parts, sep) == Join(parts, sep) + sep
    decreases |parts|
  {
    var init := parts[..|parts| - 1];
    if |parts| == 1 {
      assert Terminated(init, sep) == "";
    } else {
      TerminatedJoin(init, sep);
      JoinSnoc(init, parts[|parts| - 1], sep);
      assert init + [parts[|parts| - 1]] == parts;
    }
  }

  /** Appending one more part and its separator to a string that ends in
      terminated parts. */
  lemma AppendTerminated(head: string, parts: seq<string>, p: string, sep: string)
    ensures head + Terminated(parts, sep) + (p + sep) == head + Terminated(parts + [p], sep)
  {
    assert (parts + [p])[..|parts|] == parts;
  }

  /** `String::pop`: drops the last character, if there is one. */
  function Pop(s: string): (r: string)
    ensures |s| > 0 ==> r + [s[|s| - 1]] == s
    ensures |s| == 0 ==> r == s
  {
    if |s| == 0 then s else s[..|s| - 1]
  }

  /** Building nested lists by appending `item + inner` for each item and
      `group + outer` for each group, then replacing the last `inner` of a
      non-empty group by `outer`, terminates the joined group. */
  lemma CloseGroup(head: string, groups: seq<string>, items: seq<string>, inner: char, outer: char)
    requires |items| >= 1
    ensures Pop(head + Terminated(groups, [outer]) + Terminated(items, [inner])) + [outer] ==
      head + Terminated(groups + [Join(items, [inner])], [outer])
  {
    var before := head + Terminated(groups, [outer]);
    var joined := Join(items, [inner]);
    TerminatedJoin(items, [inner]);
    assert before + Terminated(items, [inner]) == (before + joined) + [inner];
    assert Pop((before + joined) + [inner]) == before + joined;
    assert (groups + [joined])[..|groups|] == groups;
    assert Terminated(groups + [joined], [outer]) == Terminated(groups, [outer]) + joined + [outer];
  }

  /** Dropping the separator after the last part leaves the joined parts. */
  lemma PopTerminated(head: string, parts: seq<string>, sep: char)
    requires |parts| >= 1
    ensures Pop(head + Terminated(parts, [sep])) == head + Join(parts, [sep])
  {
    TerminatedJoin(parts, [sep]);
    assert head + Terminated(parts, [sep]) == (head + Join(parts, [sep])) + [sep];
  }

  /** A character found in no part and not in the separator is not in the join. */
  lemma {:induction false} NotInJoin(parts: seq<string>, sep: string, c: char)
    requires c !in sep
    requires forall i :: 0 <= i < |parts| ==> c !in parts[i]
    ensures c !in Join(parts, sep)
    decreases |parts|
  {
    if |parts| > 1 {
      NotInJoin(parts[1..], sep, c);
    }
  }

  /** Without an occurrence of the pattern, splitting gives the whole string. */
  lemma SplitNoMatch(s: string, pat: string)
    requires |pat| > 0
    requires forall j :: !MatchAt(s, pat, j)
    ensures Split(s, pat) == [s]
  {
  }

  /** `str::split(pat)`: the pieces between the non-overlapping occurrences
      of `pat`, found from the left. */
  function Split(s: string, pat: string): (parts: seq<string>)
    requires |pat| > 0
    ensures |parts| >= 1
    decreases |s|
  {
    match FindFirst(s, pat)
    case None => [s]
    case Some(k) => [s[..k]] + Split(s[k + |pat|..], pat)
  }

  /** Joining the pieces of a split again, with the pattern between them,
      gives the string back. */
  lemma {:induction false} SplitJoinsBack(s: string, pat: string)
    requires |pat| > 0
    ensures Join(Split(s, pat), pat) == s
    decreases |s|
  {
    match FindFirst(s, pat)
    case None =>
    case Some(k) =>
      var rest := Split(s[k + |pat|..], pat);
      SplitJoinsBack(s[k + |pat|..], pat);
      JoinCons(s[..k], rest, pat);
      assert s == s[..k] + pat + s[k + |pat|..];
  }

  /** No piece of a split contains the pattern. */
  lemma {:induction false} SplitPiecesFree(s: string, pat: string)
    requires |pat| > 0
    ensures forall i :: 0 <= i < |Split(s, pat)| ==> !Contains(Split(s, pat)[i], pat)
    decreases |s|
  {
    match FindFirst(s, pat)
    case None =>
    case Some(k) =>
      MatchAtPrefix(s, pat, k);
      var rest := Split(s[k + |pat|..], pat);
      SplitPiecesFree(s[k + |pat|..], pat);
      assert !Contains(s[..k], pat);
      assert Split(s, pat) == [s[..k]] + rest;
  }

  /** The last element, as `Iterator::last` gives it on a non-empty iterator. */
  function Last(parts: seq<string>): string
    requires |parts| >= 1
  {
    parts[|parts| - 1]
  }

  /** With a one-character separator that no part contains, splitting the
      joined parts recovers them: `Split` and `Join` are inverse. */
  lemma {:induction false} SplitJoin(parts: seq<string>, sep: char)
    requires |parts| >= 1
    requires forall i :: 0 <= i < |parts| ==> sep !in parts[i]
    ensures Split(Join(parts, [sep]), [sep]) == parts
  {
    var p := parts[0];
    var s := Join(parts, [sep]);
    assert s[..|p|] == p by {
      if |parts| > 1 {
        JoinCons(p, parts[1..], [sep]);
        assert parts == [p] + parts[1..];
      }
    }
    forall j | 0 <= j < |p|
      ensures !MatchAt(s, [sep], j)
    {
      assert s[j..j + 1][0] == s[j] == p[j];
    }
    if |parts| == 1 {
      assert s == p;
      assert FindFirst(s, [sep]).None?;
    } else {
      var rest := parts[1..];
      assert parts == [p] + rest;
      JoinCons(p, rest, [sep]);
      assert s == p + [sep] + Join(rest, [sep]);
      assert s[|p|..|p| + 1] == [sep];
      assert MatchAt(s, [sep], |p|);
      assert FindFirst(s, [sep]) == Some(|p|);
      assert s[|p| + 1..] == Join(rest, [sep]);
      SplitJoin(rest, sep);
    }
  }

  predicate IsDigit(c: char)
  {
    '0' <= c <= '9'
  }

  function DigitValue(c: char): (d: nat)
    requires IsDigit(c)
    ensures d < 10
  {
    c as int - '0' as int
  }

  function DigitChar(d: nat): (c: char)
    requires d < 10
    ensures IsDigit(c) && DigitValue(c) == d
  {
    ('0' as int + d) as char
  }

  /** A non-empty run of decimal digits: what `parse::<u32>` accepts
      without panicking (up to the width of `u32`). */
  predicate IsDecimal(s: string)
  {
    |s| > 0 && forall i :: 0 <= i < |s| ==> IsDigit(s[i])
  }

  /** The value of a run of decimal digits. */
  function ParseNat(s: string): nat
    requires forall i :: 0 <= i < |s| ==> IsDigit(s[i])
    decreases |s|
  {
    if |s| == 0 then 0 else 10 * ParseNat(s[..|s| - 1]) + DigitValue(s[|s| - 1])
  }

  /** `format!("{}", n)`: the decimal digits of `n`, which parse back to `n`. */
  function NatToString(n: nat): (s: string)
    ensures IsDecimal(s)
    ensures ParseNat(s) == n
    decreases n
  {
    if n < 10 then [DigitChar(n)]
    else
      var prefix := NatToString(n / 10);
      var s := prefix + [DigitChar(n % 10)];
      assert s[..|s| - 1] == prefix;
      s
  }

  /** `chars().rev().collect()`. */
  function Reverse(s: string): string
  {
    seq(|s|, i requires 0 <= i < |s| => s[|s| - 1 - i])
  }

  /** Reversing twice gives the string back, so reversal is injective. */
  lemma ReverseReverse(s: string)
    ensures Reverse(Reverse(s)) == s
  {
    var r := Reverse(Reverse(s));
    assert forall i :: 0 <= i < |s| ==> r[i] == Reverse(s)[|s| - 1 - i] == s[i];
  }

  /** A slice of the reversed string is the reversed mirrored slice. */
  lemma ReverseSlice(s: string, a: nat, b: nat)
    requires a <= b <= |s|
    ensures Reverse(s)[a..b] == Reverse(s[|s| - b..|s| - a])
  {
    var x, m := Reverse(s)[a..b], s[|s| - b..|s| - a];
    var y := Reverse(m);
    assert |m| == b - a;
    forall t | 0 <= t < b - a
      ensures x[t] == y[t]
    {
      assert x[t] == Reverse(s)[a + t] == s[|s| - 1 - a - t];
      assert y[t] == m[|m| - 1 - t];
      assert m[|m| - 1 - t] == s[|s| - 1 - a - t];
    }
  }

  /** `r` holds the characters of `s` in reverse order. */
  lemma ReverseIs(s: string, r: string)
    requires |r| == |s|
    requires forall i :: 0 <= i < |s| ==> r[i] == s[|s| - 1 - i]
    ensures Reverse(s) == r
  {
  }
}
