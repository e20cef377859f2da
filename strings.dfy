/** The JavaScript string built-ins the content script relies on:
    `startsWith`, `split` and `join` with a one-character separator,
    `trim` and `toLowerCase`. */
module Strings {

  /** `s.startsWith(prefix)`. */
  predicate StartsWith(s: string, prefix: string) {
    |prefix| <= |s| && s[..|prefix|] == prefix
  }

  /** `s.split(sep)` for a one-character separator: the pieces between
      separators, in order, empty pieces included; "" splits into [""]. */
  function Split(s: string, sep: char): (pieces: seq<string>)
    ensures |pieces| >= 1
    ensures forall t :: t in pieces ==> sep !in t
  {
    if |s| == 0 then [""]
    else
      var rest := Split(s[1..], sep);
      if s[0] == sep then [""] + rest
      else [[s[0]] + rest[0]] + rest[1..]
  }

  /** `pieces.join(sep)` for a one-character separator. */
  function Join(pieces: seq<string>, sep: char): string {
    if |pieces| == 0 then ""
    else if |pieces| == 1 then pieces[0]
    else pieces[0] + [sep] + Join(pieces[1..], sep)
  }

  /** Joining the pieces of a split gives back the original string. */
  lemma {:induction false} JoinSplit(s: string, sep: char)
    ensures Join(Split(s, sep), sep) == s
  {
    if |s| > 0 {
      var rest := Split(s[1..], sep);
      JoinSplit(s[1..], sep);
      if s[0] == sep {
        assert Split(s, sep)[1..] == rest;
        assert s == [sep] + s[1..];
      } else if |rest| == 1 {
        assert s == [s[0]] + s[1..];
      } else {
        var pieces := Split(s, sep);
        assert pieces[1..] == rest[1..];
        assert Join(rest, sep) == rest[0] + [sep] + Join(rest[1..], sep);
        assert s == [s[0]] + s[1..];
      }
    }
  }

  /** Splitting a string that starts with a separator-free word `w`
      glues `w` onto the first piece of the remainder. */
  lemma {:induction false} SplitPrefix(w: string, s: string, sep: char)
    requires sep !in w
    ensures Split(w + s, sep) == [w + Split(s, sep)[0]] + Split(s, sep)[1..]
  {
    if |w| > 0 {
      SplitPrefix(w[1..], s, sep);
      var pieces := Split(s, sep);
      var rest := Split(w[1..] + s, sep);
      assert w[0] in w;
      assert w + s == [w[0]] + (w[1..] + s);
      SplitCons(w[0], w[1..] + s, sep);
      assert [w[0]] + (w[1..] + pieces[0]) == w + pieces[0] by {
        assert w == [w[0]] + w[1..];
      }
    } else {
      var pieces := Split(s, sep);
      assert w + s == s;
      assert w + pieces[0] == pieces[0];
      assert pieces == [pieces[0]] + pieces[1..];
    }
  }

  /** A character other than the separator joins the first piece. */
  lemma SplitCons(c: char, s: string, sep: char)
    requires c != sep
    ensures Split([c] + s, sep) == [[c] + Split(s, sep)[0]] + Split(s, sep)[1..]
  {
    assert ([c] + s)[1..] == s;
  }

  /** Splitting a join of separator-free pieces gives back the pieces. */
  lemma {:induction false} SplitJoin(pieces: seq<string>, sep: char)
    requires |pieces| >= 1
    requires forall t :: t in pieces ==> sep !in t
    ensures Split(Join(pieces, sep), sep) == pieces
  {
    var w := pieces[0];
    if |pieces| == 1 {
      SplitPrefix(w, "", sep);
      assert w + "" == w;
      assert Split("", sep) == [""];
      assert pieces == [w];
    } else {
      var tail := pieces[1..];
      assert forall t :: t in tail ==> t in pieces;
      SplitJoin(tail, sep);
      var rest := [sep] + Join(tail, sep);
      assert Join(pieces, sep) == w + rest;
      SplitPrefix(w, rest, sep);
      assert rest[0] == sep;
      assert rest[1..] == Join(tail, sep);
      assert Split(rest, sep) == [""] + tail;
      assert w + "" == w;
      assert pieces == [w] + tail;
    }
  }

  /** The characters `String.prototype.trim` removes: ECMAScript WhiteSpace
      (tab, vertical tab, form feed, space, no-break space, byte order mark
      and the Space_Separator characters) and LineTerminator. */
  predicate IsTrimmable(c: char) {
    var n := c as int;
    n == 0x09 || n == 0x0A || n == 0x0B || n == 0x0C || n == 0x0D || n == 0x20
    || n == 0xA0 || n == 0x1680 || (0x2000 <= n <= 0x200A) || n == 0x2028
    || n == 0x2029 || n == 0x202F || n == 0x205F || n == 0x3000 || n == 0xFEFF
  }

  /** The index where the kept part of `s` starts: the first index from
      `i` on whose character is not trimmable, or `|s|`. */
  function LeadingEnd(s: string, i: nat): (lo: nat)
    requires i <= |s|
    ensures i <= lo <= |s|
    ensures forall k :: i <= k < lo ==> IsTrimmable(s[k])
    ensures lo < |s| ==> !IsTrimmable(s[lo])
    decreases |s| - i
  {
    if i < |s| && IsTrimmable(s[i]) then LeadingEnd(s, i + 1) else i
  }

  /** The index where the kept part of `s[lo..j]` ends: `j` with the run
      of trimmable characters before it removed, never below `lo`. */
  function TrailingStart(s: string, lo: nat, j: nat): (hi: nat)
    requires lo <= j <= |s|
    ensures lo <= hi <= j
    ensures forall k :: hi <= k < j ==> IsTrimmable(s[k])
    ensures hi > lo ==> !IsTrimmable(s[hi - 1])
    decreases j
  {
    if j > lo && IsTrimmable(s[j - 1]) then TrailingStart(s, lo, j - 1) else j
  }

  /** `s.trim()`: the part of `s` between the leading and the trailing run
      of trimmable characters. */
  function Trim(s: string): (r: string)
    ensures |r| <= |s|
    ensures |r| > 0 ==> !IsTrimmable(r[0]) && !IsTrimmable(r[|r| - 1])
  {
    var lo := LeadingEnd(s, 0);
    s[lo..TrailingStart(s, lo, |s|)]
  }

  /** Text that neither starts nor ends with a trimmable character is
      trimmed to itself, so trimming twice is trimming once. */
  lemma TrimKeepsTrimmed(s: string)
    requires |s| > 0 ==> !IsTrimmable(s[0]) && !IsTrimmable(s[|s| - 1])
    ensures Trim(s) == s
  {
    assert LeadingEnd(s, 0) == 0;
    assert TrailingStart(s, 0, |s|) == |s|;
    assert s[0..|s|] == s;
  }

  /** `s.trim()` removes exactly a run of trimmable characters at each end:
      the result is the part of `s` from `lo` to `hi`, where everything
      before `lo` and everything from `hi` on is trimmable, and the result
      neither starts nor ends with a trimmable character. */
  lemma TrimRemovesEnds(s: string)
    ensures var lo := LeadingEnd(s, 0);
      var hi := TrailingStart(s, lo, |s|);
      && Trim(s) == s[lo..hi]
      && (forall k :: 0 <= k < lo ==> IsTrimmable(s[k]))
      && (forall k :: hi <= k < |s| ==> IsTrimmable(s[k]))
      && (lo < hi ==> !IsTrimmable(s[lo]) && !IsTrimmable(s[hi - 1]))
  {
  }

  /** The character `toLowerCase` maps `c` to, for ASCII letters. */
  function LowerChar(c: char): char {
    if 'A' <= c <= 'Z' then (c as int + 32) as char else c
  }

  /** `s.toLowerCase()` restricted to the ASCII letters. */
  function Lower(s: string): (r: string)
    ensures |r| == |s|
    ensures forall k :: 0 <= k < |r| ==> !('A' <= r[k] <= 'Z')
    ensures forall k :: 0 <= k < |s| ==>
      r[k] == s[k] || ('A' <= s[k] <= 'Z' && r[k] as int == s[k] as int + 32)
  {
    seq(|s|, k requires 0 <= k < |s| => LowerChar(s[k]))
  }

  /** Text without an upper-case ASCII letter is lower-cased to itself. */
  lemma LowerKeepsLowerText(s: string)
    requires forall k :: 0 <= k < |s| ==> !('A' <= s[k] <= 'Z')
    ensures Lower(s) == s
  {
  }
}
