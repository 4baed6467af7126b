/**
 * The Python string operations the scrapers and the token verifier rely on,
 * written out: str.split with a non-empty separator, str.join, str.replace with an
 * empty replacement, str.lower on ASCII letters, str(n) and int() on decimal digits.
 */
module PyStrings {
  import opened Results

  // ---------------------------------------------------------------------------
  // str.split with a non-empty separator

  /** `sep` occurs in `s` starting at index j. */
  predicate OccursAt(s: string, sep: string, j: int) {
    0 <= j && j + |sep| <= |s| && s[j..j + |sep|] == sep
  }

  predicate Contains(s: string, sep: string) {
    exists j | 0 <= j <= |s| :: OccursAt(s, sep, j)
  }

  /** The leftmost occurrence of `sep` in `s` at or after `from`. */
  function FindFrom(s: string, sep: string, from: nat): (r: Option<nat>)
    requires sep != []
    ensures r.Some? ==> from <= r.value && OccursAt(s, sep, r.value)
    ensures r.Some? ==> forall j :: from <= j < r.value ==> !OccursAt(s, sep, j)
    ensures r.None? ==> forall j :: from <= j ==> !OccursAt(s, sep, j)
    decreases |s| - from
  {
    if from + |sep| > |s| then None
    else if s[from..from + |sep|] == sep then Some(from)
    else FindFrom(s, sep, from + 1)
  }

  /** str.find: the leftmost occurrence, None when there is none. */
  function Find(s: string, sep: string): (r: Option<nat>)
    requires sep != []
    ensures r.None? <==> !Contains(s, sep)
    ensures r.Some? ==> OccursAt(s, sep, r.value) && forall j :: 0 <= j < r.value ==> !OccursAt(s, sep, j)
  {
    FindFrom(s, sep, 0)
  }

  /** s.split(sep): the pieces between non-overlapping occurrences of `sep`, found
      left to right. No piece contains `sep`, and there is one piece more than
      there are occurrences, so at least two exactly when `sep` occurs. */
  function Split(s: string, sep: string): (parts: seq<string>)
    requires sep != []
    ensures |parts| >= 1
    ensures |parts| >= 2 <==> Contains(s, sep)
    ensures forall k :: 0 <= k < |parts| ==> !Contains(parts[k], sep)
    decreases |s|
  {
    match Find(s, sep)
    case None => [s]
    case Some(i) =>
      PrefixBeforeFirst(s, sep, i);
      [s[..i]] + Split(s[i + |sep|..], sep)
  }

  /** sep.join(parts) */
  function Join(parts: seq<string>, sep: string): string {
    if parts == [] then ""
    else if |parts| == 1 then parts[0]
    else parts[0] + sep + Join(parts[1..], sep)
  }

  /** The text before the leftmost occurrence of `sep` does not contain `sep`. */
  lemma PrefixBeforeFirst(s: string, sep: string, i: nat)
    requires sep != [] && Find(s, sep) == Some(i)
    ensures !Contains(s[..i], sep)
  {
    forall j | OccursAt(s[..i], sep, j)
      ensures false
    {
      assert s[..i][j..j + |sep|] == s[j..j + |sep|];
      assert OccursAt(s, sep, j);
    }
  }

  /** Splitting and joining with the same separator gives back the string. */
  lemma {:induction false} SplitJoin(s: string, sep: string)
    requires sep != []
    ensures Join(Split(s, sep), sep) == s
    decreases |s|
  {
    match Find(s, sep)
    case None =>
    case Some(i) =>
      var rest := s[i + |sep|..];
      var tail := Split(rest, sep);
      assert Split(s, sep) == [s[..i]] + tail;
      SplitJoin(rest, sep);
      var parts := [s[..i]] + tail;
      assert parts[0] == s[..i] && parts[1..] == tail && |parts| >= 2;
      assert Join(parts, sep) == s[..i] + sep + Join(tail, sep);
      assert s[i..i + |sep|] == sep;
      assert s == s[..i] + s[i..i + |sep|] + rest;
  }

  /** The text before the leftmost occurrence of `sep`, or all of `s` when it does
      not occur: no occurrence starts inside it, and one starts right after it
      unless it is all of `s`. */
  function Before(s: string, sep: string): (r: string)
    requires sep != []
    ensures r <= s
    ensures r == s || OccursAt(s, sep, |r|)
    ensures forall k :: 0 <= k < |r| ==> !OccursAt(s, sep, k)
  {
    match Find(s, sep)
    case None => s
    case Some(j) => s[..j]
  }

  /** s.split(sep)[0] is the text before the leftmost occurrence of sep, or all of s
      when sep does not occur. */
  lemma SplitHead(s: string, sep: string)
    requires sep != []
    ensures var h := Split(s, sep)[0];
      h == Before(s, sep) && (h == s <==> !Contains(s, sep))
  {
    match Find(s, sep)
    case None =>
    case Some(i) =>
      assert Split(s, sep)[0] == s[..i];
      assert |s[..i]| < |s|;
  }

  /** An occurrence inside a prefix is an occurrence in the whole. */
  lemma PrefixOccurs(p: string, s: string, sep: string, j: int)
    requires p <= s && OccursAt(p, sep, j)
    ensures OccursAt(s, sep, j)
  {
    assert p[j..j + |sep|] == s[j..j + |sep|];
  }

  /** A prefix of `s` inside which no occurrence of `sep` in `s` starts is free of `sep`. */
  lemma PrefixFree(t: string, s: string, sep: string)
    requires sep != []
    requires t <= s && forall k :: 0 <= k < |t| ==> !OccursAt(s, sep, k)
    ensures !Contains(t, sep)
  {
    forall j | OccursAt(t, sep, j)
      ensures false
    {
      PrefixOccurs(t, s, sep, j);
    }
  }

  // ---------------------------------------------------------------------------
  // str.replace, str.lower and int()

  /** s.replace(c, ''): every c removed, everything else kept. */
  function RemoveChar(s: string, c: char): (r: string)
    ensures c !in r
    ensures forall x :: x != c ==> multiset(r)[x] == multiset(s)[x]
    ensures r == [] <==> forall k :: 0 <= k < |s| ==> s[k] == c
  {
    if s == [] then []
    else
      var tail := RemoveChar(s[1..], c);
      assert s == [s[0]] + s[1..];
      if s[0] == c then tail else [s[0]] + tail
  }

  /** Removal keeps the order of what it keeps: it distributes over concatenation. */
  lemma {:induction false} RemoveCharConcat(a: string, b: string, c: char)
    ensures RemoveChar(a + b, c) == RemoveChar(a, c) + RemoveChar(b, c)
    decreases |a|
  {
    if a == [] {
      assert a + b == b;
    } else {
      assert (a + b)[0] == a[0];
      assert (a + b)[1..] == a[1..] + b;
      RemoveCharConcat(a[1..], b, c);
    }
  }

  /** A string without c is left as it is. */
  lemma {:induction false} RemoveCharAbsent(s: string, c: char)
    requires c !in s
    ensures RemoveChar(s, c) == s
  {
    if s != [] {
      RemoveCharAbsent(s[1..], c);
    }
  }

  predicate IsDigit(ch: char) {
    '0' <= ch <= '9'
  }

  predicate AllDigits(s: string) {
    forall k :: 0 <= k < |s| ==> IsDigit(s[k])
  }

  /** The value of a string of decimal digits, most significant first. */
  function DigitsValue(s: string): nat
    requires AllDigits(s)
  {
    if s == [] then 0 else DigitsValue(s[..|s| - 1]) * 10 + (s[|s| - 1] as int - '0' as int)
  }

  function Pow10(n: nat): (r: nat)
    ensures r >= 1
  {
    if n == 0 then 1 else 10 * Pow10(n - 1)
  }

  function DigitOf(ch: char): nat
    requires IsDigit(ch)
  {
    ch as int - '0' as int
  }

  /** The positional reading of a digit string: each digit times ten to the number of
      digits after it. Leading zeros add nothing. */
  function PlaceValue(s: string): nat
    requires AllDigits(s)
  {
    if s == [] then 0 else DigitOf(s[0]) * Pow10(|s| - 1) + PlaceValue(s[1..])
  }

  /** Appending a digit shifts the positional value one place. */
  lemma {:induction false} PlaceValueSnoc(t: string, d: char)
    requires AllDigits(t) && IsDigit(d)
    ensures PlaceValue(t + [d]) == PlaceValue(t) * 10 + DigitOf(d)
    decreases |t|
  {
    if t == [] {
      assert [d][1..] == [];
    } else {
      assert (t + [d])[1..] == t[1..] + [d];
      PlaceValueSnoc(t[1..], d);
      var head := DigitOf(t[0]);
      assert Pow10(|t + [d]| - 1) == 10 * Pow10(|t| - 1);
      calc {
        PlaceValue(t + [d]);
        head * Pow10(|t|) + PlaceValue(t[1..] + [d]);
        head * (10 * Pow10(|t| - 1)) + PlaceValue(t[1..]) * 10 + DigitOf(d);
        { MulAssoc(head, 10, Pow10(|t| - 1)); }
        (head * Pow10(|t| - 1) + PlaceValue(t[1..])) * 10 + DigitOf(d);
      }
    }
  }

  lemma MulAssoc(a: int, b: int, c: int)
    ensures a * (b * c) == (a * c) * b
  {
  }

  /** Reading digits left to right, accumulating by tens, gives the positional value. */
  lemma {:induction false} DigitsValuePlaces(s: string)
    requires AllDigits(s)
    ensures DigitsValue(s) == PlaceValue(s)
    decreases |s|
  {
    if s != [] {
      var init := s[..|s| - 1];
      DigitsValuePlaces(init);
      PlaceValueSnoc(init, s[|s| - 1]);
      assert init + [s[|s| - 1]] == s;
    }
  }

  /** int(s) on decimal digits; None is the ValueError. */
  function ParseInt(s: string): (r: Option<int>)
    ensures r.Some? <==> s != [] && AllDigits(s)
    ensures r.Some? ==> r.value == PlaceValue(s)
    ensures r.Some? ==> r.value >= 0
  {
    if s != [] && AllDigits(s) then
      DigitsValuePlaces(s);
      Some(DigitsValue(s))
    else None
  }

  /** A leading zero adds nothing to the positional value. */
  lemma LeadingZeroPlace(t: string)
    requires AllDigits(t) && t != [] && t[0] == '0'
    ensures PlaceValue(t) == PlaceValue(t[1..])
  {
    assert DigitOf(t[0]) == 0;
  }

  /** int() ignores leading zeros: int("0" * n + s) == int(s). */
  lemma {:induction false} ParseIntLeadingZeros(zeros: string, s: string)
    requires forall k :: 0 <= k < |zeros| ==> zeros[k] == '0'
    requires s != [] && AllDigits(s)
    ensures ParseInt(zeros + s) == ParseInt(s)
    decreases |zeros|
  {
    if zeros != [] {
      ParseIntLeadingZeros(zeros[1..], s);
      var padded := zeros + s;
      assert padded[1..] == zeros[1..] + s;
      assert AllDigits(padded) by {
        forall k | 0 <= k < |padded|
          ensures IsDigit(padded[k])
        {
          if k >= |zeros| {
            assert padded[k] == s[k - |zeros|];
          }
        }
      }
      LeadingZeroPlace(padded);
      assert ParseInt(padded[1..]).Some?;
      assert ParseInt(padded) == Some(PlaceValue(padded[1..])) == ParseInt(padded[1..]);
    } else {
      assert zeros + s == s;
    }
  }

  /** str(n) for a natural number. */
  function ShowNat(n: nat): (s: string)
    ensures s != [] && AllDigits(s)
  {
    if n < 10 then [('0' as int + n) as char]
    else ShowNat(n / 10) + [('0' as int + n % 10) as char]
  }

  /** int(str(n)) == n. */
  lemma {:induction false} ParseShowNat(n: nat)
    ensures ParseInt(ShowNat(n)) == Some(n)
  {
    var s := ShowNat(n);
    if n < 10 {
      assert s[..|s| - 1] == [];
    } else {
      ParseShowNat(n / 10);
      assert s[..|s| - 1] == ShowNat(n / 10);
      assert DigitsValue(s) == DigitsValue(ShowNat(n / 10)) * 10 + n % 10;
    }
  }

  /** str.lower on ASCII letters. */
  function LowerChar(ch: char): char {
    if 'A' <= ch <= 'Z' then (ch as int - 'A' as int + 'a' as int) as char else ch
  }

  predicate HasUpper(s: string) {
    exists k :: 0 <= k < |s| && 'A' <= s[k] <= 'Z'
  }

  /** For a one-character separator, occurring and being an element coincide. */
  lemma ContainsChar(s: string, ch: char)
    ensures Contains(s, [ch]) <==> ch in s
  {
    if ch in s {
      var j :| 0 <= j < |s| && s[j] == ch;
      assert s[j..j + 1] == [ch];
      assert OccursAt(s, [ch], j);
    }
    if Contains(s, [ch]) {
      var j :| 0 <= j <= |s| && OccursAt(s, [ch], j);
      assert s[j..j + 1][0] == s[j];
    }
  }

  /** A string without the separator splits into itself alone. */
  lemma SplitNoSep(s: string, sep: string)
    requires sep != [] && !Contains(s, sep)
    ensures Split(s, sep) == [s]
  {
  }

  /** Splitting on a one-character separator peels off the piece before its first
      occurrence. */
  lemma SplitAtFirst(a: string, b: string, ch: char)
    requires ch !in a
    ensures Split(a + [ch] + b, [ch]) == [a] + Split(b, [ch])
  {
    var s := a + [ch] + b;
    assert OccursAt(s, [ch], |a|);
    forall j | 0 <= j < |a|
      ensures !OccursAt(s, [ch], j)
    {
      assert s[j] == a[j];
    }
    assert Find(s, [ch]) == Some(|a|);
    assert s[..|a|] == a;
    assert s[|a| + 1..] == b;
  }

  /** Three pieces free of a one-character separator, joined by it, split back into
      those three pieces. */
  lemma SplitThree(a: string, b: string, c: string, ch: char)
    requires ch !in a && ch !in b && ch !in c
    ensures Split(a + [ch] + b + [ch] + c, [ch]) == [a, b, c]
  {
    assert a + [ch] + b + [ch] + c == a + [ch] + (b + [ch] + c);
    SplitAtFirst(a, b + [ch] + c, ch);
    SplitAtFirst(b, c, ch);
    ContainsChar(c, ch);
    SplitNoSep(c, [ch]);
  }
}
