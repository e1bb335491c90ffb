// The pieces of Rust's `str` API that the program relies on, over `seq<char>`.
// Whitespace is Unicode's White_Space, as `char::is_whitespace`; case folding
// is ASCII only (see README, "Left out").
module Text {
  import opened Util

  /** `char::is_whitespace`: the characters with Unicode's White_Space property. */
  predicate IsWhitespace(c: char)
  {
    || ('\t' <= c <= '\r') || c == ' ' || c == '\U{0085}' || c == '\U{00A0}' || c == '\U{1680}'
    || ('\U{2000}' <= c <= '\U{200A}') || c == '\U{2028}' || c == '\U{2029}' || c == '\U{202F}'
    || c == '\U{205F}' || c == '\U{3000}'
  }

  predicate IsAsciiAlphanumeric(c: char)
  {
    ('a' <= c <= 'z') || ('A' <= c <= 'Z') || ('0' <= c <= '9')
  }

  /** `str::trim_start`: drops leading whitespace. */
  function TrimStart(s: string): (r: string)
    ensures |r| <= |s| && r == s[|s| - |r|..]
    ensures r != [] ==> !IsWhitespace(r[0])
    ensures forall i :: 0 <= i < |s| - |r| ==> IsWhitespace(s[i])
    decreases |s|
  {
    if s != [] && IsWhitespace(s[0]) then TrimStart(s[1..]) else s
  }

  /** `str::trim_end`: drops trailing whitespace. */
  function TrimEnd(s: string): (r: string)
    ensures |r| <= |s| && r == s[..|r|]
    ensures r != [] ==> !IsWhitespace(r[|r| - 1])
    ensures forall i :: |r| <= i < |s| ==> IsWhitespace(s[i])
    decreases |s|
  {
    if s != [] && IsWhitespace(s[|s| - 1]) then TrimEnd(s[..|s| - 1]) else s
  }

  /** `str::trim`. */
  function Trim(s: string): (r: string)
    ensures r != [] ==> !IsWhitespace(r[0]) && !IsWhitespace(r[|r| - 1])
    ensures |r| <= |s|
  {
    TrimEnd(TrimStart(s))
  }

  /** `trim` keeps one slice of its input, starting where `trim_start` starts. */
  lemma TrimKeepsSlice(s: string)
    ensures var i := |s| - |TrimStart(s)|;
            && i + |Trim(s)| <= |s|
            && forall k :: 0 <= k < |Trim(s)| ==> Trim(s)[k] == s[i + k]
  {
    var u := TrimStart(s);
    TrimParts(s, u, TrimEnd(u));
  }

  /** Every character `trim` drops, on either side of the slice it keeps, is whitespace. */
  lemma TrimDropsWhitespace(s: string)
    ensures var i := |s| - |TrimStart(s)|;
            && (forall k :: 0 <= k < i ==> IsWhitespace(s[k]))
            && (forall k :: i + |Trim(s)| <= k < |s| ==> IsWhitespace(s[k]))
  {
    var u := TrimStart(s);
    TrimParts(s, u, TrimEnd(u));
  }

  /** Both, for a suffix `u` of `s` and a prefix `t` of `u`. */
  lemma TrimParts(s: string, u: string, t: string)
    requires |u| <= |s| && u == s[|s| - |u|..]
    requires forall k :: 0 <= k < |s| - |u| ==> IsWhitespace(s[k])
    requires |t| <= |u| && t == u[..|t|]
    requires forall k :: |t| <= k < |u| ==> IsWhitespace(u[k])
    ensures var i := |s| - |u|;
            && i + |t| <= |s|
            && (forall k :: 0 <= k < |t| ==> t[k] == s[i + k])
            && (forall k :: i + |t| <= k < |s| ==> IsWhitespace(s[k]))
  {
    var i := |s| - |u|;
    forall k | 0 <= k < |t|
      ensures t[k] == s[i + k]
    {
      assert t[k] == u[k];
    }
    forall k | i + |t| <= k < |s|
      ensures IsWhitespace(s[k])
    {
      assert s[k] == u[k - i];
    }
  }

  function ToLowerChar(c: char): (r: char)
  {
    if 'A' <= c <= 'Z' then (c as int + 32) as char else c
  }

  /** `str::to_lowercase`, ASCII letters only. */
  function ToLower(s: string): (r: string)
    ensures |r| == |s|
    ensures forall i :: 0 <= i < |s| ==> r[i] == ToLowerChar(s[i])
  {
    seq(|s|, i requires 0 <= i < |s| => ToLowerChar(s[i]))
  }

  /** `String::pop`: drops the last character, if there is one. */
  function Pop(s: string): (r: string)
    ensures s == [] ==> r == []
    ensures s != [] ==> r + [s[|s| - 1]] == s
  {
    if s == [] then [] else s[..|s| - 1]
  }

  /** Popping undoes pushing. */
  lemma PopPush(s: string, c: char)
    ensures Pop(s + [c]) == s
  {
    assert (s + [c])[..|s|] == s;
  }

  /** `str::starts_with`. */
  predicate StartsWith(s: string, p: string)
  {
    |p| <= |s| && s[..|p|] == p
  }

  /** A prefix made of two parts is a prefix iff both parts match in turn. */
  lemma StartsWithConcat(s: string, p: string, q: string)
    ensures StartsWith(s, p + q) <==> StartsWith(s, p) && StartsWith(s[|p|..], q)
  {
    if StartsWith(s, p) && StartsWith(s[|p|..], q) {
      assert s[..|p + q|] == s[..|p|] + s[|p|..][..|q|];
    }
    if StartsWith(s, p + q) {
      assert s[..|p|] == (p + q)[..|p|];
      assert s[|p|..][..|q|] == s[..|p + q|][|p|..];
    }
  }

  /** A string that differs from `p` at some position within `p` does not start with `p`. */
  lemma NotStartsWithAt(s: string, p: string, i: nat)
    requires i < |p| && (i >= |s| || s[i] != p[i])
    ensures !StartsWith(s, p)
  {
  }

  /** `str::ends_with`. */
  predicate EndsWith(s: string, p: string)
  {
    |p| <= |s| && s[|s| - |p|..] == p
  }

  /** `str::contains` for a string pattern. */
  predicate Contains(s: string, p: string)
  {
    exists i :: 0 <= i <= |s| && StartsWith(s[i..], p)
  }

  /** Every string contains the empty string. */
  lemma ContainsEmpty(s: string)
    ensures Contains(s, [])
  {
    assert StartsWith(s[0..], []);
  }

  /** `str::strip_prefix`. */
  function StripPrefix(s: string, p: string): (r: Option<string>)
    ensures r.Some? <==> StartsWith(s, p)
    ensures r.Some? ==> p + r.value == s
  {
    if StartsWith(s, p) then
      assert s == s[..|p|] + s[|p|..];
      Some(s[|p|..])
    else None
  }

  /** `str::trim_start_matches` for a non-empty string pattern: strips `p` repeatedly. */
  function TrimStartMatches(s: string, p: string): (r: string)
    requires p != []
    ensures !StartsWith(r, p)
    ensures |r| <= |s| && r == s[|s| - |r|..]
    decreases |s|
  {
    if StartsWith(s, p) then TrimStartMatches(s[|p|..], p) else s
  }

  /** `p` written `n` times. */
  function Repeat(p: string, n: nat): string
  {
    if n == 0 then [] else p + Repeat(p, n - 1)
  }

  /** How many copies of `p` `trim_start_matches` removes. */
  function StripCount(s: string, p: string): nat
    requires p != []
    decreases |s|
  {
    if StartsWith(s, p) then 1 + StripCount(s[|p|..], p) else 0
  }

  /** What `trim_start_matches` removes is whole copies of `p`, and nothing else. */
  lemma {:induction false} TrimStartMatchesRepeats(s: string, p: string)
    requires p != []
    ensures s == Repeat(p, StripCount(s, p)) + TrimStartMatches(s, p)
    decreases |s|
  {
    if StartsWith(s, p) {
      TrimStartMatchesRepeats(s[|p|..], p);
      assert s == p + s[|p|..];
    }
  }

  /** Drops one trailing carriage return, as `str::lines` does before a line feed. */
  function StripCr(s: string): (r: string)
  {
    if s != [] && s[|s| - 1] == '\r' then s[..|s| - 1] else s
  }

  /** Index of the first occurrence of `c`, or |s| when there is none. */
  function IndexOf(s: string, c: char): (k: nat)
    ensures k <= |s|
    ensures k < |s| ==> s[k] == c
    ensures forall i :: 0 <= i < k ==> s[i] != c
    decreases |s|
  {
    if s == [] then 0 else if s[0] == c then 0 else 1 + IndexOf(s[1..], c)
  }

  /**
   * `str::lines`: splits at each line feed and strips a carriage return that
   * precedes one; a final line needs no terminator and "" has no lines.
   */
  function Lines(s: string): (r: seq<string>)
    ensures forall k :: 0 <= k < |r| ==> '\n' !in r[k]
    ensures s != [] ==> r != []
    decreases |s|
  {
    if s == [] then []
    else
      var k := IndexOf(s, '\n');
      if k == |s| then [s]
      else [StripCr(s[..k])] + Lines(s[k + 1..])
  }

  /** Each part followed by `sep`. */
  function TerminatedBy(parts: seq<string>, sep: string): string
  {
    if parts == [] then [] else parts[0] + sep + TerminatedBy(parts[1..], sep)
  }

  /** A line `lines` gives back as it is: no line feed, and no carriage return at its end. */
  predicate PlainLine(l: string)
  {
    '\n' !in l && (l == [] || l[|l| - 1] != '\r')
  }

  /**
   * `lines` takes back what it is given: plain lines, each ended by a line
   * feed, then a last line without one (absent when empty).
   */
  lemma {:induction false} LinesOfTerminated(ls: seq<string>, last: string)
    requires forall k :: 0 <= k < |ls| ==> PlainLine(ls[k])
    requires '\n' !in last
    ensures Lines(TerminatedBy(ls, "\n") + last) == ls + (if last == [] then [] else [last])
    decreases |ls|
  {
    if ls == [] {
      assert TerminatedBy(ls, "\n") + last == last;
      if last != [] {
        IndexOfAbsent(last, '\n');
      }
    } else {
      var rest := TerminatedBy(ls[1..], "\n") + last;
      assert TerminatedBy(ls, "\n") + last == ls[0] + ("\n" + rest);
      LinesOfPlainLine(ls[0], rest);
      LinesOfTerminated(ls[1..], last);
      assert ls == [ls[0]] + ls[1..];
    }
  }

  lemma {:induction false} IndexOfAbsent(s: string, c: char)
    requires c !in s
    ensures IndexOf(s, c) == |s|
    decreases |s|
  {
    if s != [] {
      assert s[0] in s;
      assert forall x :: x in s[1..] ==> x in s;
      IndexOfAbsent(s[1..], c);
    }
  }

  /** A plain line followed by a line feed is the first line `lines` gives. */
  lemma LinesOfPlainLine(l: string, rest: string)
    requires PlainLine(l)
    ensures Lines(l + ("\n" + rest)) == [l] + Lines(rest)
  {
    var s := l + ("\n" + rest);
    IndexOfFirst(l, "\n" + rest, '\n');
    assert s[..|l|] == l && s[|l| + 1..] == rest;
  }

  lemma {:induction false} IndexOfFirst(a: string, b: string, c: char)
    requires c !in a && b != [] && b[0] == c
    ensures IndexOf(a + b, c) == |a|
    decreases |a|
  {
    if a != [] {
      assert a[0] in a;
      assert forall x :: x in a[1..] ==> x in a;
      assert (a + b)[1..] == a[1..] + b;
      IndexOfFirst(a[1..], b, c);
    }
  }

  /** Concatenation with a separator, as `[..].join(sep)`. */
  function Join(parts: seq<string>, sep: string): (r: string)
    ensures parts == [] ==> r == []
    ensures |parts| == 1 ==> r == parts[0]
  {
    if parts == [] then []
    else if |parts| == 1 then parts[0]
    else parts[0] + sep + Join(parts[1..], sep)
  }

  /** In a join, every part but the last is followed by `sep`. */
  lemma {:induction false} JoinTerminates(parts: seq<string>, sep: string)
    requires parts != []
    ensures Join(parts, sep) == TerminatedBy(parts[..|parts| - 1], sep) + parts[|parts| - 1]
    decreases |parts|
  {
    if |parts| > 1 {
      JoinTerminates(parts[1..], sep);
      assert parts[..|parts| - 1][1..] == parts[1..][..|parts[1..]| - 1];
    }
  }

  /** Joining lines with line feeds and splitting them again gives the lines back. */
  lemma {:induction false} LinesOfJoin(ls: seq<string>)
    requires ls != [] && ls[|ls| - 1] != [] && '\n' !in ls[|ls| - 1]
    requires forall k :: 0 <= k < |ls| - 1 ==> PlainLine(ls[k])
    ensures Lines(Join(ls, "\n")) == ls
    decreases |ls|
  {
    if |ls| == 1 {
      IndexOfAbsent(ls[0], '\n');
    } else {
      assert ls == [ls[0]] + ls[1..];
      var rest := Join(ls[1..], "\n");
      assert Join(ls, "\n") == ls[0] + ("\n" + rest);
      LinesOfPlainLine(ls[0], rest);
      LinesOfJoin(ls[1..]);
    }
  }

  /** The first maximal run of non-whitespace characters starting at the front. */
  function TakeWord(s: string): (r: string)
    ensures |r| <= |s| && r == s[..|r|]
    ensures forall i :: 0 <= i < |r| ==> !IsWhitespace(r[i])
    ensures |r| < |s| ==> IsWhitespace(s[|r|])
    ensures s != [] && !IsWhitespace(s[0]) ==> r != []
    decreases |s|
  {
    if s == [] || IsWhitespace(s[0]) then [] else [s[0]] + TakeWord(s[1..])
  }

  predicate IsWord(w: string)
  {
    w != [] && forall i :: 0 <= i < |w| ==> !IsWhitespace(w[i])
  }

  /** `str::split_whitespace`: the non-empty, whitespace-free words, in order. */
  function SplitWhitespace(s: string): (r: seq<string>)
    ensures forall k :: 0 <= k < |r| ==> IsWord(r[k])
    decreases |s|
  {
    var t := TrimStart(s);
    if t == [] then []
    else
      var w := TakeWord(t);
      var rest := SplitWhitespace(t[|w|..]);
      WordsCons(w, rest);
      [w] + rest
  }

  lemma WordsCons(w: string, rest: seq<string>)
    requires forall i :: 0 <= i < |w| ==> !IsWhitespace(w[i])
    requires w != [] && forall k :: 0 <= k < |rest| ==> IsWord(rest[k])
    ensures forall k :: 0 <= k < |[w] + rest| ==> IsWord(([w] + rest)[k])
  {
  }

  /** Leading whitespace makes no difference to `trim_start`. */
  lemma {:induction false} TrimStartSkips(g: string, s: string)
    requires forall i :: 0 <= i < |g| ==> IsWhitespace(g[i])
    ensures TrimStart(g + s) == TrimStart(s)
    decreases |g|
  {
    if g == [] {
      assert g + s == s;
    } else {
      assert (g + s)[0] == g[0];
      assert (g + s)[1..] == g[1..] + s;
      TrimStartSkips(g[1..], s);
    }
  }

  /** The word at the front of `w + t` is `w` when `t` is empty or starts with whitespace. */
  lemma {:induction false} TakeWordOf(w: string, t: string)
    requires forall i :: 0 <= i < |w| ==> !IsWhitespace(w[i])
    requires t == [] || IsWhitespace(t[0])
    ensures TakeWord(w + t) == w
    decreases |w|
  {
    if w == [] {
      assert w + t == t;
    } else {
      assert (w + t)[1..] == w[1..] + t;
      TakeWordOf(w[1..], t);
    }
  }

  /** A word at the front, up to whitespace or the end, is the first word. */
  lemma SplitWhitespaceOfWord(w: string, rest: string)
    requires IsWord(w) && (rest == [] || IsWhitespace(rest[0]))
    ensures SplitWhitespace(w + rest) == [w] + SplitWhitespace(rest)
  {
    var s := w + rest;
    assert TrimStart(s) == s;
    TakeWordOf(w, rest);
    assert s[|w|..] == rest;
  }

  /** Words joined by a whitespace gap split back into the same words. */
  lemma {:induction false} SplitWhitespaceOfJoin(ws: seq<string>, gap: string)
    requires forall k :: 0 <= k < |ws| ==> IsWord(ws[k])
    requires gap != [] && forall i :: 0 <= i < |gap| ==> IsWhitespace(gap[i])
    ensures SplitWhitespace(Join(ws, gap)) == ws
    decreases |ws|
  {
    if |ws| == 1 {
      SplitWhitespaceOfWord(ws[0], []);
      assert ws[0] + [] == ws[0];
    } else if ws != [] {
      assert ws == [ws[0]] + ws[1..];
      var j' := Join(ws[1..], gap);
      assert Join(ws, gap) == ws[0] + (gap + j');
      SplitWhitespaceOfWord(ws[0], gap + j');
      TrimStartSkips(gap, j');
      SplitWhitespaceOfJoin(ws[1..], gap);
    }
  }

  // ---- numbers ----

  function DigitChar(d: nat): (c: char)
    requires d < 10
  {
    ['0', '1', '2', '3', '4', '5', '6', '7', '8', '9'][d]
  }

  /** Decimal rendering of a natural number, as `{}` formats it. */
  function NatToString(n: nat): (r: string)
    ensures r != []
    decreases n
  {
    if n < 10 then [DigitChar(n)] else NatToString(n / 10) + [DigitChar(n % 10)]
  }

  /** Decimal rendering of an integer with a leading '-' when negative. */
  function IntToString(n: int): (r: string)
    ensures r != []
    ensures (r[0] == '-') <==> n < 0
  {
    if n < 0 then "-" + NatToString(-n) else
      var d := NatToString(n);
      assert d[0] != '-' by { NatToStringDigits(n); }
      d
  }

  predicate IsDigit(c: char) { '0' <= c <= '9' }

  lemma {:induction false} NatToStringDigits(n: nat)
    ensures forall i :: 0 <= i < |NatToString(n)| ==> IsDigit(NatToString(n)[i])
    decreases n
  {
    if n >= 10 { NatToStringDigits(n / 10); }
  }

  predicate AllDigits(s: string)
  {
    forall i :: 0 <= i < |s| ==> IsDigit(s[i])
  }

  /** Value of a string of decimal digits. */
  function DigitsValue(s: string): (v: nat)
    requires AllDigits(s)
    decreases |s|
  {
    if s == [] then 0 else
      var d := s[|s| - 1];
      assert IsDigit(d);
      DigitsValue(s[..|s| - 1]) * 10 + (d as int - '0' as int)
  }

  const U64_MAX: nat := 0xFFFF_FFFF_FFFF_FFFF

  /**
   * `str::parse::<u64>`: an optional '+', then at least one decimal digit, and
   * a value that fits in 64 bits. Anything else (empty input, a sign alone,
   * '-', spaces, overflow) is an error.
   */
  function ParseU64(s: string): (r: Option<nat>)
    ensures r.Some? ==> r.value <= U64_MAX
    ensures s == [] ==> r.None?
    ensures r.Some? ==> (s[0] == '+' || IsDigit(s[0]))
    ensures var digits := if s != [] && s[0] == '+' then s[1..] else s;
            && (r.Some? <==> digits != [] && AllDigits(digits) && DigitsValue(digits) <= U64_MAX)
            && (r.Some? ==> r.value == DigitsValue(digits))
  {
    var digits := if s != [] && s[0] == '+' then s[1..] else s;
    if digits == [] || exists i :: 0 <= i < |digits| && !IsDigit(digits[i]) then None
    else if DigitsValue(digits) > U64_MAX then None
    else Some(DigitsValue(digits))
  }

  lemma {:induction false} DigitsValueOfNatToString(n: nat)
    ensures NatToStringDigitsHold(n)
    ensures DigitsValue(NatToString(n)) == n
    decreases n
  {
    NatToStringDigits(n);
    if n >= 10 {
      DigitsValueOfNatToString(n / 10);
      var s := NatToString(n);
      assert s[..|s| - 1] == NatToString(n / 10);
    }
  }

  predicate NatToStringDigitsHold(n: nat)
  {
    forall i :: 0 <= i < |NatToString(n)| ==> IsDigit(NatToString(n)[i])
  }

  /** Formatting a 64-bit value and parsing it back gives the value again. */
  lemma ParseU64OfNatToString(n: nat)
    requires n <= U64_MAX
    ensures ParseU64(NatToString(n)) == Some(n)
  {
    DigitsValueOfNatToString(n);
    var s := NatToString(n);
    assert s[0] != '+' by { assert IsDigit(s[0]); }
  }

  // ---- ordering ----

  /** `Ord for str`: lexicographic by code point. */
  predicate StrLess(a: string, b: string)
    decreases |a|
  {
    if a == [] then b != []
    else if b == [] then false
    else if a[0] != b[0] then a[0] < b[0]
    else StrLess(a[1..], b[1..])
  }

  lemma {:induction false} StrLessIrreflexive(a: string)
    ensures !StrLess(a, a)
    decreases |a|
  {
    if a != [] { StrLessIrreflexive(a[1..]); }
  }

  lemma {:induction false} StrLessTransitive(a: string, b: string, c: string)
    requires StrLess(a, b) && StrLess(b, c)
    ensures StrLess(a, c)
    decreases |a|
  {
    if a != [] && b != [] && c != [] && a[0] == b[0] && b[0] == c[0] {
      StrLessTransitive(a[1..], b[1..], c[1..]);
    }
  }

  lemma {:induction false} StrLessTotal(a: string, b: string)
    ensures a == b || StrLess(a, b) || StrLess(b, a)
    decreases |a|
  {
    if a != [] && b != [] && a[0] == b[0] {
      StrLessTotal(a[1..], b[1..]);
      if a[1..] == b[1..] { assert a == [a[0]] + a[1..] && b == [b[0]] + b[1..]; }
    }
  }

  lemma {:induction false} StrLessAsymmetric(a: string, b: string)
    requires StrLess(a, b)
    ensures !StrLess(b, a)
    decreases |a|
  {
    if a != [] && b != [] && a[0] == b[0] { StrLessAsymmetric(a[1..], b[1..]); }
  }
}
