/**
 * The parts of Rust's `str` and `BufRead` that the configuration parser and the
 * hash rely on: whitespace trimming, prefix tests, splitting on a character,
 * line splitting and UTF-8 encoding.
 */
module Strings {

  /** Rust's `char::is_whitespace`: the Unicode White_Space property. */
  predicate IsWhitespace(c: char) {
    ('\t' <= c <= '\r') || c == ' ' || c == '\U{0085}' || c == '\U{00A0}' || c == '\U{1680}'
    || ('\U{2000}' <= c <= '\U{200A}') || c == '\U{2028}' || c == '\U{2029}'
    || c == '\U{202F}' || c == '\U{205F}' || c == '\U{3000}'
  }

  /** The number of whitespace characters `s` starts with. */
  function LeadingWhitespace(s: string): (k: nat)
    ensures k <= |s|
    ensures forall i :: 0 <= i < k ==> IsWhitespace(s[i])
    ensures k < |s| ==> !IsWhitespace(s[k])
  {
    if s != [] && IsWhitespace(s[0]) then
      var k := LeadingWhitespace(s[1..]);
      assert forall i :: 0 <= i < k ==> s[1..][i] == s[i + 1];
      1 + k
    else 0
  }

  /** `str::trim_start`: drops the leading whitespace and nothing else. */
  function TrimStart(s: string): (r: string)
    ensures r == s[LeadingWhitespace(s)..]
    ensures r != [] ==> !IsWhitespace(r[0])
  {
    if s != [] && IsWhitespace(s[0]) then
      var r := TrimStart(s[1..]);
      assert s[1..][LeadingWhitespace(s[1..])..] == s[1 + LeadingWhitespace(s[1..])..];
      r
    else s
  }

  /** `str::trim_end`: drops the trailing whitespace and nothing else. */
  function TrimEnd(s: string): (r: string)
    ensures |r| <= |s| && r == s[..|r|]
    ensures forall i :: |r| <= i < |s| ==> IsWhitespace(s[i])
    ensures r != [] ==> !IsWhitespace(r[|r| - 1])
  {
    if s != [] && IsWhitespace(s[|s| - 1]) then
      var r := TrimEnd(s[..|s| - 1]);
      assert s[..|s| - 1][..|r|] == s[..|r|];
      r
    else s
  }

  /**
   * `str::trim`: drops the leading and the trailing whitespace and nothing
   * else. The result is the slice of `s` that starts after its leading
   * whitespace and is followed by whitespace only.
   */
  function Trim(s: string): (r: string)
    ensures LeadingWhitespace(s) + |r| <= |s|
    ensures r == s[LeadingWhitespace(s)..LeadingWhitespace(s) + |r|]
    ensures forall i :: LeadingWhitespace(s) + |r| <= i < |s| ==> IsWhitespace(s[i])
    ensures r != [] ==> !IsWhitespace(r[0]) && !IsWhitespace(r[|r| - 1])
    ensures r == [] <==> forall i :: 0 <= i < |s| ==> IsWhitespace(s[i])
  {
    var k := LeadingWhitespace(s);
    var t := TrimStart(s);
    var r := TrimEnd(t);
    SuffixSlice(s, k, |r|);
    r
  }

  /** A prefix of a suffix is a slice, and the rest of the suffix sits at the end of the sequence. */
  lemma SuffixSlice<T>(s: seq<T>, k: nat, n: nat)
    requires k + n <= |s|
    ensures s[k..][..n] == s[k..k + n]
    ensures forall i :: k + n <= i < |s| ==> s[i] == s[k..][i - k]
  {
  }

  /** Every character of `s` is whitespace. */
  predicate OnlyWhitespace(s: string) {
    forall i :: 0 <= i < |s| ==> IsWhitespace(s[i])
  }

  /** `str::trim_start_matches(c)` for a single character `c`. */
  function TrimStartMatches(s: string, c: char): (r: string)
    ensures |r| <= |s| && forall i :: 0 <= i < |r| ==> r[i] == s[|s| - |r| + i]
    ensures forall i :: 0 <= i < |s| - |r| ==> s[i] == c
    ensures r != [] ==> r[0] != c
  {
    if s != [] && s[0] == c then
      var t := s[1..];
      var r := TrimStartMatches(t, c);
      assert forall i :: 0 <= i < |t| ==> t[i] == s[i + 1];
      r
    else s
  }

  /** `str::starts_with(prefix)`. */
  predicate StartsWith(s: string, prefix: string) {
    |prefix| <= |s| && s[..|prefix|] == prefix
  }

  /** Number of occurrences of `c` in `s`. */
  function Count(s: string, c: char): nat {
    if s == [] then 0 else (if s[0] == c then 1 else 0) + Count(s[1..], c)
  }

  /** Index of the first `c` in `s`, or `|s|` when there is none. */
  function IndexOf(s: string, c: char): (k: nat)
    ensures k <= |s|
    ensures k < |s| <==> c in s
    ensures k < |s| ==> s[k] == c
    ensures c !in s[..k]
  {
    if s == [] then 0 else if s[0] == c then 0 else 1 + IndexOf(s[1..], c)
  }

  /** The parts joined back together with `sep` between consecutive parts. */
  function Join(parts: seq<string>, sep: char): string
    requires parts != []
  {
    if |parts| == 1 then parts[0] else parts[0] + [sep] + Join(parts[1..], sep)
  }

  /**
   * `str::split(sep)`: the maximal runs of characters other than `sep`, so one
   * more part than there are separators (the empty string has one empty part).
   */
  function Split(s: string, sep: char): (parts: seq<string>)
    ensures |parts| == Count(s, sep) + 1
    ensures forall k :: 0 <= k < |parts| ==> sep !in parts[k]
    ensures Join(parts, sep) == s
  {
    if s == [] then [[]]
    else
      var rest := Split(s[1..], sep);
      if s[0] == sep then
        assert s == [sep] + s[1..];
        [[]] + rest
      else
        var parts := [[s[0]] + rest[0]] + rest[1..];
        assert Join(parts, sep) == s by {
          if |rest| == 1 {
            assert s == [s[0]] + s[1..];
          } else {
            assert Join(rest, sep) == rest[0] + [sep] + Join(rest[1..], sep);
            assert parts[1..] == rest[1..];
            assert s == [s[0]] + s[1..];
          }
        }
        parts
  }

  /** A character occurs in a string exactly when its count is positive. */
  lemma {:induction false} CountPositive(s: string, c: char)
    ensures Count(s, c) > 0 <==> c in s
  {
    if s != [] {
      CountPositive(s[1..], c);
      assert s == [s[0]] + s[1..];
    }
  }

  /** Splitting a string that holds exactly one separator gives the text before and after it. */
  lemma {:induction false} SplitAtSingle(s: string, sep: char)
    requires Count(s, sep) == 1
    ensures IndexOf(s, sep) < |s|
    ensures Split(s, sep) == [s[..IndexOf(s, sep)], s[IndexOf(s, sep) + 1..]]
  {
    CountPositive(s, sep);
    if s[0] == sep {
      SplitWithout(s[1..], sep);
    } else {
      SplitAtSingle(s[1..], sep);
      var k := IndexOf(s, sep);
      assert k == 1 + IndexOf(s[1..], sep);
      ConsSlices(s, k);
    }
  }

  /** Cutting the tail of `s` at `k - 1` is cutting `s` at `k`. */
  lemma ConsSlices<T>(s: seq<T>, k: nat)
    requires 1 <= k < |s|
    ensures [s[0]] + s[1..][..k - 1] == s[..k]
    ensures s[1..][k..] == s[k + 1..]
  {
  }

  /** A string without the separator splits into itself. */
  lemma {:induction false} SplitWithout(s: string, sep: char)
    requires Count(s, sep) == 0
    ensures Split(s, sep) == [s]
  {
    if s != [] {
      SplitWithout(s[1..], sep);
      assert [s[0]] + s[1..] == s;
    }
  }

  /**
   * `BufRead::lines` on text read from a reader: split at '\n', with no line
   * for the empty text after a final newline. (Rust also drops a '\r' before
   * the '\n'; every caller trims the line, and '\r' is whitespace.)
   */
  function Lines(text: string): (lines: seq<string>)
    ensures lines == [] <==> text == []
    ensures forall k :: 0 <= k < |lines| ==> '\n' !in lines[k]
    ensures |lines| <= Count(text, '\n') + 1
    ensures text != [] && text[|text| - 1] == '\n' ==> Join(lines, '\n') + "\n" == text
    ensures text != [] && text[|text| - 1] != '\n' ==> Join(lines, '\n') == text
  {
    if text == [] then []
    else
      var parts := Split(text, '\n');
      var init := parts[..|parts| - 1];
      var last := parts[|parts| - 1];
      if |parts| == 1 then
        parts
      else
        assert parts == init + [last];
        JoinSnoc(init, last, '\n');
        if last == [] then init else parts
  }

  /** Joining one more part appends the separator and that part. */
  lemma {:induction false} JoinSnoc(parts: seq<string>, last: string, sep: char)
    requires parts != []
    ensures Join(parts + [last], sep) == Join(parts, sep) + [sep] + last
    decreases |parts|
  {
    if |parts| > 1 {
      assert (parts + [last])[1..] == parts[1..] + [last];
      JoinSnoc(parts[1..], last, sep);
    }
  }

  /** The byte holding `n`. */
  function Byte(n: nat): bv8
    requires n < 0x100
  {
    n as bv8
  }

  /** A UTF-8 continuation byte carrying the low six bits of `n`. */
  function Continuation(n: nat): bv8 {
    Byte(0x80 + n % 0x40)
  }

  /** The UTF-8 encoding of one Unicode scalar value (`char::encode_utf8`). */
  function EncodeChar(c: char): (bytes: seq<bv8>)
    ensures 1 <= |bytes| <= 4
    ensures (c as int < 0x80) <==> |bytes| == 1
  {
    var cp := c as int;
    if cp < 0x80 then [Byte(cp)]
    else if cp < 0x800 then [Byte(0xC0 + cp / 0x40), Continuation(cp)]
    else if cp < 0x10000 then [Byte(0xE0 + cp / 0x1000), Continuation(cp / 0x40), Continuation(cp)]
    else [Byte(0xF0 + cp / 0x40000), Continuation(cp / 0x1000), Continuation(cp / 0x40), Continuation(cp)]
  }

  /** `str::as_bytes`: the UTF-8 encoding of a string, character by character. */
  function Utf8(s: string): (bytes: seq<bv8>)
    ensures |s| <= |bytes| <= 4 * |s|
    ensures (forall i :: 0 <= i < |s| ==> s[i] as int < 0x80) ==> |bytes| == |s|
  {
    if s == [] then [] else EncodeChar(s[0]) + Utf8(s[1..])
  }
}
