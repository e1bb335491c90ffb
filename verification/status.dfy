// The status bar (src/ui/status.rs): the `AppStatus` record it shows, and
// `truncate_str`. Rust strings are UTF-8: `len` counts bytes and `&s[..k]`
// panics unless byte `k` starts a character.
module Status {
  import opened Util
  import opened Text

  /** `AppStatus`; the time of the last fetch is the clock reading the watcher stored. */
  datatype AppStatus = AppStatus(
    isFetching: bool,
    lastFetch: Option<int>,
    remoteBranchCount: nat,
    worktreeCount: nat,
    runningHooks: nat,
    lastError: Option<string>,
    autoCreateEnabled: bool,
    pollInterval: nat,
    remoteName: string)

  /** Bytes that UTF-8 uses for one character. */
  function Utf8Width(c: char): (w: nat)
    ensures 1 <= w <= 4
    ensures w == 1 <==> (c as int) < 0x80
  {
    if (c as int) < 0x80 then 1 else if (c as int) < 0x800 then 2 else if (c as int) < 0x1_0000 then 3 else 4
  }

  /** `str::len`: the length of the UTF-8 encoding, in bytes. */
  function ByteLen(s: string): (n: nat)
    ensures n >= |s|
    decreases |s|
  {
    if s == [] then 0 else Utf8Width(s[0]) + ByteLen(s[1..])
  }

  lemma {:induction false} ByteLenAscii(s: string)
    requires forall i :: 0 <= i < |s| ==> (s[i] as int) < 0x80
    ensures ByteLen(s) == |s|
    decreases |s|
  {
    if s != [] { ByteLenAscii(s[1..]); }
  }

  /** Removing the first character of a non-empty prefix removes its width. */
  lemma PrefixByteLen(s: string, j: nat)
    requires 1 <= j <= |s|
    ensures ByteLen(s[..j]) == Utf8Width(s[0]) + ByteLen(s[1..][..j - 1])
  {
    assert s[..j][1..] == s[1..][..j - 1];
  }

  /** Longer prefixes have more bytes. */
  lemma {:induction false} PrefixByteLenGrows(s: string, j: nat)
    requires 1 <= j <= |s|
    ensures ByteLen(s[..j]) >= Utf8Width(s[0])
  {
    PrefixByteLen(s, j);
  }

  /** Byte `k` starts a character (or is the end): some prefix is exactly `k` bytes long. */
  predicate IsCharBoundary(s: string, k: nat)
  {
    exists j :: 0 <= j <= |s| && ByteLen(s[..j]) == k
  }

  /** `&s[..k]`: the prefix of exactly `k` bytes, or None where Rust panics. */
  function PrefixOfBytes(s: string, k: nat): (r: Option<string>)
    ensures r.Some? <==> IsCharBoundary(s, k)
    ensures r.Some? ==> StartsWith(s, r.value) && ByteLen(r.value) == k
    decreases |s|
  {
    if k == 0 then
      assert ByteLen(s[..0]) == 0;
      assert StartsWith(s, []);
      Some([])
    else if s == [] || Utf8Width(s[0]) > k then
      assert !IsCharBoundary(s, k) by {
        forall j | 0 <= j <= |s| ensures ByteLen(s[..j]) != k {
          if j >= 1 { PrefixByteLenGrows(s, j); }
        }
      }
      None
    else
      var w := Utf8Width(s[0]);
      var rest := PrefixOfBytes(s[1..], k - w);
      assert IsCharBoundary(s, k) <==> IsCharBoundary(s[1..], k - w) by {
        if IsCharBoundary(s, k) {
          var j :| 0 <= j <= |s| && ByteLen(s[..j]) == k;
          PrefixByteLen(s, j);
          assert ByteLen(s[1..][..j - 1]) == k - w;
        }
        if IsCharBoundary(s[1..], k - w) {
          var j :| 0 <= j <= |s[1..]| && ByteLen(s[1..][..j]) == k - w;
          PrefixByteLen(s, j + 1);
        }
      }
      if rest.None? then None
      else
        assert ByteLen([s[0]] + rest.value) == w + ByteLen(rest.value) by {
          assert ([s[0]] + rest.value)[1..] == rest.value;
        }
        assert s[..1 + |rest.value|] == [s[0]] + s[1..][..|rest.value|];
        Some([s[0]] + rest.value)
  }

  /**
   * `truncate_str` as written: the string itself when it fits in `maxLen`
   * bytes, else its first `maxLen - 3` bytes (saturating, no ellipsis added).
   * None stands for the panic of slicing inside a character.
   */
  function TruncateStr(s: string, maxLen: nat): (r: Option<string>)
    ensures ByteLen(s) <= maxLen ==> r == Some(s)
    ensures ByteLen(s) > maxLen ==> (r.Some? <==> IsCharBoundary(s, SatSub(maxLen, 3)))
    ensures r.Some? ==> StartsWith(s, r.value) && ByteLen(r.value) <= maxLen
    ensures ByteLen(s) > maxLen && r.Some? ==> ByteLen(r.value) == SatSub(maxLen, 3)
  {
    if ByteLen(s) <= maxLen then
      assert s[..|s|] == s;
      Some(s)
    else PrefixOfBytes(s, SatSub(maxLen, 3))
  }

  /** On ASCII text every byte starts a character, so the cut never panics and keeps `maxLen - 3` characters. */
  lemma AsciiTruncates(s: string, maxLen: nat)
    requires forall i :: 0 <= i < |s| ==> (s[i] as int) < 0x80
    requires |s| > maxLen
    ensures TruncateStr(s, maxLen) == Some(s[..SatSub(maxLen, 3)])
  {
    ByteLenAscii(s);
    var k := SatSub(maxLen, 3);
    assert forall i :: 0 <= i < |s[..k]| ==> (s[..k][i] as int) < 0x80;
    ByteLenAscii(s[..k]);
    var r := TruncateStr(s, maxLen);
    assert r.Some?;
    assert |r.value| <= |s| && r.value == s[..|r.value|];
    assert forall i :: 0 <= i < |r.value| ==> (r.value[i] as int) < 0x80;
    ByteLenAscii(r.value);
  }

  /**
   * When the cut falls inside a multi-byte character the slice panics: a
   * character of two bytes starting at byte `maxLen - 4` of a string that is
   * too long.
   */
  lemma TruncatePanicsInsideChar(p: string, c: char, rest: string, maxLen: nat)
    requires maxLen >= 4 && ByteLen(p) == maxLen - 4 && Utf8Width(c) >= 2
    requires ByteLen(p + [c] + rest) > maxLen
    ensures TruncateStr(p + [c] + rest, maxLen).None?
  {
    var s := p + [c] + rest;
    forall j | 0 <= j <= |s| ensures ByteLen(s[..j]) != maxLen - 3 {
      if j <= |p| {
        ByteLenSplit(p, j);
        assert s[..j] == p[..j];
        if j < |p| {
          PrefixStrictlyShorter(p, j);
        }
      } else {
        assert s[..j] == p + [c] + s[|p| + 1..j];
        ByteLenAppend(p + [c], s[|p| + 1..j]);
        ByteLenAppend(p, [c]);
        assert ByteLen([c]) == Utf8Width(c) by { assert [c][1..] == []; }
      }
    }
  }

  /** The status bar's own use: an error message cut to 40 bytes. */
  lemma StatusBarPanics()
    ensures TruncateStr(seq(36, i => 'a') + ['é'] + "xyz", 40).None?
  {
    var p := seq(36, i => 'a');
    ByteLenAscii(p);
    ByteLenAppend(p + ['é'], "xyz");
    ByteLenAppend(p, ['é']);
    assert ByteLen(['é']) == 2 by { assert ['é'][1..] == []; }
    assert ByteLen("xyz") == 3;
    TruncatePanicsInsideChar(p, 'é', "xyz", 40);
  }

  lemma {:induction false} ByteLenAppend(a: string, b: string)
    ensures ByteLen(a + b) == ByteLen(a) + ByteLen(b)
    decreases |a|
  {
    if a == [] {
      assert a + b == b;
    } else {
      assert (a + b)[0] == a[0] && (a + b)[1..] == a[1..] + b;
      ByteLenAppend(a[1..], b);
    }
  }

  lemma ByteLenSplit(s: string, j: nat)
    requires j <= |s|
    ensures ByteLen(s) == ByteLen(s[..j]) + ByteLen(s[j..])
  {
    assert s == s[..j] + s[j..];
    ByteLenAppend(s[..j], s[j..]);
  }

  /** A proper prefix has fewer bytes than the whole, by at least its next character. */
  lemma PrefixStrictlyShorter(s: string, j: nat)
    requires j < |s|
    ensures ByteLen(s[..j]) + Utf8Width(s[j]) <= ByteLen(s)
  {
    ByteLenSplit(s, j);
    assert s[j..][0] == s[j];
  }

  /** The longest prefix of at most `k` bytes: the cut moved back to a character boundary. */
  function FloorPrefix(s: string, k: nat): (r: string)
    ensures StartsWith(s, r) && ByteLen(r) <= k
    ensures |r| < |s| ==> ByteLen(r) + Utf8Width(s[|r|]) > k
    decreases |s|
  {
    if s == [] || Utf8Width(s[0]) > k then
      assert StartsWith(s, []);
      []
    else
      var rest := FloorPrefix(s[1..], k - Utf8Width(s[0]));
      assert ([s[0]] + rest)[1..] == rest;
      assert s[..1 + |rest|] == [s[0]] + s[1..][..|rest|];
      [s[0]] + rest
  }

  /** `truncate_str` cutting at the last character boundary that fits, as evidently intended. */
  function TruncateAtBoundary(s: string, maxLen: nat): (r: string)
    ensures ByteLen(s) <= maxLen ==> r == s
    ensures StartsWith(s, r) && ByteLen(r) <= maxLen
    ensures ByteLen(s) > maxLen ==> ByteLen(r) <= SatSub(maxLen, 3)
  {
    if ByteLen(s) <= maxLen then
      assert s[..|s|] == s;
      s
    else FloorPrefix(s, SatSub(maxLen, 3))
  }

  /** Wherever the original does not panic, the corrected cut gives the same string. */
  lemma {:induction false} BoundaryAgrees(s: string, maxLen: nat)
    requires TruncateStr(s, maxLen).Some?
    ensures TruncateAtBoundary(s, maxLen) == TruncateStr(s, maxLen).value
  {
    if ByteLen(s) > maxLen {
      FloorPrefixExact(s, SatSub(maxLen, 3));
    }
  }

  /** At a character boundary, the longest prefix that fits is exactly the prefix of that many bytes. */
  lemma {:induction false} FloorPrefixExact(s: string, k: nat)
    requires PrefixOfBytes(s, k).Some?
    ensures FloorPrefix(s, k) == PrefixOfBytes(s, k).value
    decreases |s|
  {
    if k != 0 {
      FloorPrefixExact(s[1..], k - Utf8Width(s[0]));
    }
  }
}
