/** The string operations and the four regular expressions the automation
    script relies on, each written out as a hand-made string function.
    Python's `re.match` anchors only at the start of the text, so each
    pattern used with it is a PREFIX check. */
module Text {

  // ---------------------------------------------------------------------
  // Case folding and line reading
  // ---------------------------------------------------------------------

  /** `lower()` on one character (ASCII letters only). */
  function LowerChar(c: char): char {
    if 'A' <= c <= 'Z' then (c as int + 32) as char else c
  }

  /** `s.lower()`: every character case-folded, nothing else changed. */
  function Lower(s: string): (r: string)
    ensures |r| == |s|
    ensures forall i :: 0 <= i < |s| ==> r[i] == LowerChar(s[i])
  {
    if s == [] then [] else [LowerChar(s[0])] + Lower(s[1..])
  }

  /** What `readline()` returns on a file holding `s`: everything up to and
      including the first newline, or all of `s` when it has none. */
  function ReadLine(s: string): (r: string)
    ensures r <= s
    ensures forall i :: 0 <= i < |r| - 1 ==> r[i] != '\n'
    ensures r == s || (|r| > 0 && r[|r| - 1] == '\n')
  {
    if s == [] then []
    else if s[0] == '\n' then ['\n']
    else [s[0]] + ReadLine(s[1..])
  }

  /** A line without a newline is read back whole. */
  lemma {:induction false} ReadLineWhole(s: string)
    requires forall i :: 0 <= i < |s| ==> s[i] != '\n'
    ensures ReadLine(s) == s
  {
    if s != [] {
      ReadLineWhole(s[1..]);
    }
  }

  // ---------------------------------------------------------------------
  // Substring test (`"status ACTIVE" in result`)
  // ---------------------------------------------------------------------

  /** `pat` occurs in `s` starting at index `i`. */
  predicate OccursAt(s: string, pat: string, i: nat) {
    i + |pat| <= |s| && s[i..i + |pat|] == pat
  }

  /** Python's `pat in s` on strings: `pat` occurs at some index of `s`. */
  function Contains(s: string, pat: string): (b: bool)
    ensures b <==> exists i: nat :: OccursAt(s, pat, i)
    decreases |s|
  {
    if |s| < |pat| then false
    else if s[..|pat|] == pat then
      assert OccursAt(s, pat, 0);
      true
    else
      var rest := Contains(s[1..], pat);
      assert forall i: nat :: OccursAt(s, pat, i + 1) <==> OccursAt(s[1..], pat, i) by {
        forall i: nat ensures OccursAt(s, pat, i + 1) <==> OccursAt(s[1..], pat, i) {
          if i + 1 + |pat| <= |s| { assert s[1..][i..i + |pat|] == s[i + 1..i + 1 + |pat|]; }
        }
      }
      assert !OccursAt(s, pat, 0);
      assert (exists i: nat :: OccursAt(s, pat, i)) ==> exists i: nat :: OccursAt(s[1..], pat, i) by {
        if exists i: nat :: OccursAt(s, pat, i) {
          var i: nat :| OccursAt(s, pat, i);
          assert i > 0;
          assert OccursAt(s[1..], pat, i - 1);
        }
      }
      rest
  }

  // ---------------------------------------------------------------------
  // `[0-9a-f]{8}-[0-9a-f]{4}-[0-9a-f]{4}-[0-9a-f]{4}-[0-9a-f]{12}` and `[0-9]{10}`
  // ---------------------------------------------------------------------

  predicate IsLowerHex(c: char) {
    '0' <= c <= '9' || 'a' <= c <= 'f'
  }

  predicate IsDigit(c: char) {
    '0' <= c <= '9'
  }

  /** `[0-9a-f]{n}` matched at position `at`. */
  predicate HexRun(s: string, at: nat, n: nat) {
    at + n <= |s| && forall i :: at <= i < at + n ==> IsLowerHex(s[i])
  }

  /** `re.match` of the UUID pattern: the first 36 characters have the
      8-4-4-4-12 lower-case hexadecimal shape; what follows is not looked at. */
  predicate StartsWithUuid(s: string) {
    && |s| >= 36
    && HexRun(s, 0, 8) && s[8] == '-'
    && HexRun(s, 9, 4) && s[13] == '-'
    && HexRun(s, 14, 4) && s[18] == '-'
    && HexRun(s, 19, 4) && s[23] == '-'
    && HexRun(s, 24, 12)
  }

  /** The text of `str(uuid.uuid4())`: exactly the 36 characters of the pattern. */
  predicate IsUuidText(s: string) {
    |s| == 36 && StartsWithUuid(s)
  }

  /** A UUID's text holds no newline, so `readline()` on a file holding only
      it gives it back unchanged. */
  lemma UuidReadsBack(s: string)
    requires IsUuidText(s)
    ensures ReadLine(s) == s
  {
    forall i | 0 <= i < |s|
      ensures s[i] != '\n'
    {
      if i !in {8, 13, 18, 23} {
        assert HexRun(s, 0, 8) && HexRun(s, 9, 4) && HexRun(s, 14, 4) && HexRun(s, 19, 4) && HexRun(s, 24, 12);
        assert IsLowerHex(s[i]);
      }
    }
    ReadLineWhole(s);
  }

  /** `re.match('[0-9]{10}', s)`: the first ten characters are decimal digits. */
  predicate StartsWithTenDigits(s: string) {
    |s| >= 10 && forall i :: 0 <= i < 10 ==> IsDigit(s[i])
  }

  // ---------------------------------------------------------------------
  // `re.match('^.+:', ip)`: the IPv6 test
  // ---------------------------------------------------------------------

  /** A ':' occurs in `t`, and no newline occurs before it. */
  predicate ColonOnFirstLine(t: string) {
    |t| > 0 && (t[0] == ':' || (t[0] != '\n' && ColonOnFirstLine(t[1..])))
  }

  /** `^.+:` matches: one or more non-newline characters, then a ':'. */
  predicate IsIpv6Text(ip: string) {
    |ip| >= 2 && ip[0] != '\n' && ColonOnFirstLine(ip[1..])
  }

  /** The scanner above agrees with the regular expression's meaning: some
      ':' sits at index 1 or later and every character before it is not a
      newline (the characters `.+` consumed). */
  lemma {:induction false} IsIpv6TextMeaning(ip: string)
    ensures IsIpv6Text(ip) <==>
      exists k :: 1 <= k < |ip| && ip[k] == ':' && forall j :: 0 <= j < k ==> ip[j] != '\n'
  {
    if |ip| >= 2 && ip[0] != '\n' {
      ColonOnFirstLineMeaning(ip[1..]);
      if ColonOnFirstLine(ip[1..]) {
        var m :| 0 <= m < |ip[1..]| && ip[1..][m] == ':' && forall j :: 0 <= j < m ==> ip[1..][j] != '\n';
        assert ip[m + 1] == ':';
        assert forall j :: 0 <= j < m + 1 ==> ip[j] != '\n' by {
          forall j | 0 <= j < m + 1 ensures ip[j] != '\n' {
            if j > 0 { assert ip[j] == ip[1..][j - 1]; }
          }
        }
      } else {
        forall k | 1 <= k < |ip| && ip[k] == ':'
          ensures exists j :: 0 <= j < k && ip[j] == '\n'
        {
          assert ip[1..][k - 1] == ':';
          var j :| 0 <= j < k - 1 && ip[1..][j] == '\n';
          assert ip[j + 1] == '\n';
        }
      }
    } else if |ip| >= 2 {
      assert ip[0] == '\n';
    }
  }

  lemma {:induction false} ColonOnFirstLineMeaning(t: string)
    ensures ColonOnFirstLine(t) <==>
      exists m :: 0 <= m < |t| && t[m] == ':' && forall j :: 0 <= j < m ==> t[j] != '\n'
  {
    if |t| > 0 && t[0] != ':' {
      ColonOnFirstLineMeaning(t[1..]);
      if t[0] != '\n' {
        if ColonOnFirstLine(t[1..]) {
          var m :| 0 <= m < |t[1..]| && t[1..][m] == ':' && forall j :: 0 <= j < m ==> t[1..][j] != '\n';
          assert t[m + 1] == ':';
          assert forall j :: 0 <= j < m + 1 ==> t[j] != '\n' by {
            forall j | 0 <= j < m + 1 ensures t[j] != '\n' {
              if j > 0 { assert t[j] == t[1..][j - 1]; }
            }
          }
        } else {
          forall m | 0 <= m < |t| && t[m] == ':'
            ensures exists j :: 0 <= j < m && t[j] == '\n'
          {
            assert m > 0;
            assert t[1..][m - 1] == ':';
            var j :| 0 <= j < m - 1 && t[1..][j] == '\n';
            assert t[j + 1] == '\n';
          }
        }
      }
    } else if |t| > 0 {
      assert t[0] == ':';
    }
  }

  // ---------------------------------------------------------------------
  // `re.sub('^.*[*][^.]*', '', url)`: the data-group wildcard strip
  // ---------------------------------------------------------------------

  /** Length of the first line: where `.` stops matching. */
  function LineEnd(s: string): (n: nat)
    ensures n <= |s| && (n < |s| ==> s[n] == '\n')
    ensures forall k :: 0 <= k < n ==> s[k] != '\n'
  {
    if s == [] || s[0] == '\n' then 0 else 1 + LineEnd(s[1..])
  }

  /** The largest index below `n` holding '*', or -1 when there is none. */
  function LastStarBefore(s: string, n: nat): (i: int)
    requires n <= |s|
    ensures -1 <= i < n && (i >= 0 ==> s[i] == '*')
    ensures forall k :: i < k < n ==> s[k] != '*'
  {
    if n == 0 then -1
    else if s[n - 1] == '*' then n - 1
    else LastStarBefore(s, n - 1)
  }

  /** The first index at or after `from` holding '.', or |s| when there is none. */
  function NextDot(s: string, from: nat): (j: nat)
    requires from <= |s|
    ensures from <= j <= |s| && (j < |s| ==> s[j] == '.')
    ensures forall k :: from <= k < j ==> s[k] != '.'
    decreases |s| - from
  {
    if from == |s| then |s|
    else if s[from] == '.' then from
    else NextDot(s, from + 1)
  }

  predicate NoStarOnFirstLine(s: string) {
    forall k :: 0 <= k < LineEnd(s) ==> s[k] != '*'
  }

  /** Deletes the match of `^.*[*][^.]*`. The greedy `.*` backs off to the
      LAST '*' of the first line; `[^.]*` then takes every following
      character up to (not including) the next '.', newlines included. The
      result is what is left: a suffix of the input that, when a '*' was
      removed, is empty or starts with '.'. */
  function StripWildcardPrefix(s: string): (r: string)
    ensures |r| <= |s| && r == s[|s| - |r|..]
    ensures NoStarOnFirstLine(s) ==> r == s
    ensures !NoStarOnFirstLine(s) ==>
      var j := |s| - |r|;
      && (r == [] || r[0] == '.')
      && exists i :: 0 <= i < j && i < LineEnd(s) && s[i] == '*'
           && (forall k :: i < k < LineEnd(s) ==> s[k] != '*')
           && (forall k :: i < k < j ==> s[k] != '.')
  {
    var i := LastStarBefore(s, LineEnd(s));
    if i < 0 then s else s[NextDot(s, i + 1)..]
  }

  /** On a single-line URL the strip leaves no '*' behind, so applying it
      again changes nothing. */
  lemma StripWildcardPrefixIdempotent(s: string)
    requires forall k :: 0 <= k < |s| ==> s[k] != '\n'
    ensures var r := StripWildcardPrefix(s);
      (forall k :: 0 <= k < |r| ==> r[k] != '*') && StripWildcardPrefix(r) == r
  {
    var r := StripWildcardPrefix(s);
    var i := LastStarBefore(s, LineEnd(s));
    assert LineEnd(s) == |s|;
    forall k | 0 <= k < |r| ensures r[k] != '*' {
      assert r[k] == s[|s| - |r| + k];
    }
    assert LineEnd(r) <= |r|;
  }

  // ---------------------------------------------------------------------
  // `re.sub('\*', '\\*', url)`: escaping the wildcard for `glob-match`
  // ---------------------------------------------------------------------

  /** Every '*' becomes the two characters `\*`: no star of the result is
      bare, a text without stars is kept as it is, and nothing else changes
      (`EscapeStarsRoundTrip`). */
  function EscapeStars(s: string): (r: string)
    ensures |r| >= |s|
    ensures forall k :: 0 <= k < |r| && r[k] == '*' ==> k > 0 && r[k - 1] == '\\'
    ensures (forall k :: 0 <= k < |s| ==> s[k] != '*') ==> r == s
  {
    if s == [] then []
    else
      var head := if s[0] == '*' then ['\\', '*'] else [s[0]];
      var tail := EscapeStars(s[1..]);
      assert forall k :: |head| <= k < |head + tail| ==> (head + tail)[k] == tail[k - |head|];
      head + tail
  }

  /** The inverse reading: every `\*` becomes '*'. */
  function UnescapeStars(s: string): string {
    if s == [] then []
    else if |s| >= 2 && s[0] == '\\' && s[1] == '*' then ['*'] + UnescapeStars(s[2..])
    else [s[0]] + UnescapeStars(s[1..])
  }

  /** An escaped text never starts with a bare '*'. */
  lemma EscapedHead(s: string)
    ensures EscapeStars(s) == [] || EscapeStars(s)[0] != '*'
  {
  }

  /** Escaping loses nothing: the escaped text reads back as the original. */
  lemma {:induction false} EscapeStarsRoundTrip(s: string)
    ensures UnescapeStars(EscapeStars(s)) == s
  {
    if s != [] {
      EscapeStarsRoundTrip(s[1..]);
      EscapedHead(s[1..]);
      var tail := EscapeStars(s[1..]);
      if s[0] == '*' {
        assert EscapeStars(s) == ['\\', '*'] + tail;
        assert (['\\', '*'] + tail)[2..] == tail;
      } else {
        assert EscapeStars(s) == [s[0]] + tail;
        assert ([s[0]] + tail)[1..] == tail;
      }
    }
  }
}
