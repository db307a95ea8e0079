/**
 * The few JavaScript string built-ins the core relies on, for one-character
 * separators and plain decimal integers: `split`, `trim` and `parseInt`.
 */
module JsString {
  import opened Wrappers

  /** Inverse of `Split`: the pieces glued back together with `sep` between them. */
  function Join(parts: seq<string>, sep: char): string
    requires |parts| >= 1
  {
    if |parts| == 1 then parts[0]
    else Join(parts[..|parts| - 1], sep) + [sep] + parts[|parts| - 1]
  }

  /**
   * `s.split(sep)`: the maximal runs of characters between separators, in
   * order; an empty string gives one empty piece, and a separator at either
   * end gives an empty piece there.
   */
  function Split(s: string, sep: char): (parts: seq<string>)
    ensures |parts| >= 1
    ensures forall k :: 0 <= k < |parts| ==> sep !in parts[k]
    decreases |s|
  {
    if s == [] then [[]]
    else
      var front := Split(s[..|s| - 1], sep);
      var c := s[|s| - 1];
      if c == sep then front + [[]]
      else front[..|front| - 1] + [front[|front| - 1] + [c]]
  }

  /** Joining the pieces of a split with the separator gives back the string. */
  lemma {:induction false} JoinSplit(s: string, sep: char)
    ensures Join(Split(s, sep), sep) == s
    decreases |s|
  {
    if s != [] {
      var init := s[..|s| - 1];
      var c := s[|s| - 1];
      JoinSplit(init, sep);
      var front := Split(init, sep);
      assert s == init + [c];
      if c == sep {
        var parts := front + [[]];
        assert parts[..|parts| - 1] == front;
      } else {
        JoinExtendLast(front, c, sep);
      }
    }
  }

  /** A character added to the last piece lands at the end of the join. */
  lemma JoinExtendLast(parts: seq<string>, c: char, sep: char)
    requires |parts| >= 1
    ensures Join(parts[..|parts| - 1] + [parts[|parts| - 1] + [c]], sep) == Join(parts, sep) + [c]
  {
    var longer := parts[..|parts| - 1] + [parts[|parts| - 1] + [c]];
    assert longer[..|longer| - 1] == parts[..|parts| - 1];
  }

  /** Splitting a string built with no separator inside its last piece extends that piece. */
  lemma {:induction false} SplitAppendPlain(s: string, t: string, sep: char)
    requires sep !in t
    ensures var front := Split(s, sep);
      Split(s + t, sep) == front[..|front| - 1] + [front[|front| - 1] + t]
    decreases |t|
  {
    var front := Split(s, sep);
    if t == [] {
      assert s + t == s;
      assert front[|front| - 1] + t == front[|front| - 1];
      assert front == front[..|front| - 1] + [front[|front| - 1]];
    } else {
      var t' := t[..|t| - 1];
      assert (s + t)[..|s + t| - 1] == s + t';
      SplitAppendPlain(s, t', sep);
      assert (s + t)[|s + t| - 1] == t[|t| - 1];
      assert t' + [t[|t| - 1]] == t;
      assert front[|front| - 1] + t' + [t[|t| - 1]] == front[|front| - 1] + t;
    }
  }

  /** Round trip the other way: pieces free of the separator come back from `Split(Join(...))`. */
  lemma {:induction false} SplitJoin(parts: seq<string>, sep: char)
    requires |parts| >= 1
    requires forall k :: 0 <= k < |parts| ==> sep !in parts[k]
    ensures Split(Join(parts, sep), sep) == parts
    decreases |parts|
  {
    var last := parts[|parts| - 1];
    if |parts| == 1 {
      SplitPlain(last, sep);
    } else {
      var init := parts[..|parts| - 1];
      assert forall k :: 0 <= k < |init| ==> init[k] == parts[k];
      SplitJoin(init, sep);
      SplitJoinStep(init, last, sep);
      assert init + [last] == parts;
    }
  }

  /** One more separator-free piece at the end of a join is one more piece of the split. */
  lemma SplitJoinStep(init: seq<string>, last: string, sep: char)
    requires |init| >= 1 && sep !in last
    requires Split(Join(init, sep), sep) == init
    ensures Split(Join(init + [last], sep), sep) == init + [last]
  {
    var parts := init + [last];
    assert parts[..|parts| - 1] == init;
    var head := Join(init, sep) + [sep];
    assert Join(parts, sep) == head + last;
    SplitSeparatorEnd(Join(init, sep), sep);
    SplitAppendPlain(head, last, sep);
    var front := init + [[]];
    assert front[..|front| - 1] == init;
    assert front[|front| - 1] + last == last;
  }

  /** A string without the separator splits into itself alone. */
  lemma SplitPlain(t: string, sep: char)
    requires sep !in t
    ensures Split(t, sep) == [t] && Split(Join([t], sep), sep) == [t]
  {
    SplitAppendPlain([], t, sep);
    assert [] + t == t;
  }

  /** A separator at the end of a string opens a new, empty last piece. */
  lemma SplitSeparatorEnd(s: string, sep: char)
    ensures Split(s + [sep], sep) == Split(s, sep) + [[]]
  {
    assert (s + [sep])[..|s|] == s;
  }

  /**
   * The characters `String.prototype.trim` removes: the ECMAScript
   * WhiteSpace set (tab, vertical tab, form feed, the byte-order mark and
   * every Unicode space separator) and the LineTerminator set (line feed,
   * carriage return, line separator, paragraph separator).
   */
  predicate IsWhite(c: char) {
    || c == '\t' || c == '\U{000B}' || c == '\U{000C}' || c == '\U{FEFF}'
    || c == ' ' || c == '\U{00A0}' || c == '\U{1680}' || '\U{2000}' <= c <= '\U{200A}'
    || c == '\U{202F}' || c == '\U{205F}' || c == '\U{3000}'
    || c == '\n' || c == '\r' || c == '\U{2028}' || c == '\U{2029}'
  }

  /** `s.trimStart()`: drops the leading white space, keeps the rest as it is. */
  function TrimStart(s: string): (r: string)
    ensures |r| <= |s| && r == s[|s| - |r|..]
    ensures forall k :: 0 <= k < |s| - |r| ==> IsWhite(s[k])
    ensures r == [] || !IsWhite(r[0])
  {
    if s != [] && IsWhite(s[0]) then
      var t := s[1..];
      var r := TrimStart(t);
      assert t[|t| - |r|..] == s[|s| - |r|..];
      assert forall k :: 1 <= k < |s| - |r| ==> s[k] == t[k - 1];
      r
    else s
  }

  /** `s.trimEnd()`: drops the trailing white space, keeps the rest as it is. */
  function TrimEnd(s: string): (r: string)
    ensures |r| <= |s| && r == s[..|r|]
    ensures forall k :: |r| <= k < |s| ==> IsWhite(s[k])
    ensures r == [] || !IsWhite(r[|r| - 1])
  {
    if s != [] && IsWhite(s[|s| - 1]) then
      var t := s[..|s| - 1];
      var r := TrimEnd(t);
      assert t[..|r|] == s[..|r|];
      assert forall k :: |r| <= k < |t| ==> s[k] == t[k];
      r
    else s
  }

  /**
   * `s.trim()`: the slice of `s` left once white space is dropped at both
   * ends; it neither starts nor ends with white space.
   */
  function Trim(s: string): (r: string)
    ensures |r| <= |s|
    ensures r == [] || (!IsWhite(r[0]) && !IsWhite(r[|r| - 1]))
  {
    TrimEndWithin(s, TrimStart(s));
    TrimEnd(TrimStart(s))
  }

  /**
   * `trim` drops white space only: what it keeps is the slice of `s` from
   * offset `a`, with only white space before and after it.
   */
  lemma TrimDropsOnlyWhite(s: string) returns (a: nat)
    ensures a + |Trim(s)| <= |s|
    ensures Trim(s) == s[a..a + |Trim(s)|]
    ensures forall k :: 0 <= k < a ==> IsWhite(s[k])
    ensures forall k :: a + |Trim(s)| <= k < |s| ==> IsWhite(s[k])
  {
    var t := TrimStart(s);
    TrimEndWithin(s, t);
    a := |s| - |t|;
  }

  /** Trimming twice is trimming once. */
  lemma TrimIdempotent(s: string)
    ensures Trim(Trim(s)) == Trim(s)
  {
    TrimKeepsUnpadded(Trim(s));
  }

  /** Trimming the end of a string's suffix `t` removes white space of `s` only. */
  lemma TrimEndWithin(s: string, t: string)
    requires |t| <= |s| && t == s[|s| - |t|..]
    requires t == [] || !IsWhite(t[0])
    ensures var a := |s| - |t|; var r := TrimEnd(t);
      && a + |r| <= |s|
      && r == s[a..a + |r|]
      && (forall k :: a + |r| <= k < |s| ==> IsWhite(s[k]))
      && (r == [] || (!IsWhite(r[0]) && !IsWhite(r[|r| - 1])))
  {
    var a := |s| - |t|;
    var r := TrimEnd(t);
    if r != [] {
      assert r[0] == t[0];
    }
    forall k | a + |r| <= k < |s| ensures IsWhite(s[k]) {
      assert s[k] == t[k - a];
    }
    assert s[a..a + |r|] == t[..|r|];
  }


  /** A string with no white space at its ends is left alone by `trim`. */
  lemma TrimKeepsUnpadded(s: string)
    requires s == [] || (!IsWhite(s[0]) && !IsWhite(s[|s| - 1]))
    ensures Trim(s) == s
  {
  }

  predicate IsDigit(c: char) { '0' <= c <= '9' }

  predicate AllDigits(s: string) { forall k :: 0 <= k < |s| ==> IsDigit(s[k]) }

  function DigitValue(c: char): nat requires IsDigit(c) { (c - '0') as nat }

  function DigitChar(d: nat): (c: char)
    requires d < 10
    ensures IsDigit(c) && DigitValue(c) == d
  {
    ('0' as int + d) as char
  }

  /** The value of a string of decimal digits, most significant first. */
  function DigitsValue(s: string): nat
    requires AllDigits(s)
  {
    if s == [] then 0 else DigitsValue(s[..|s| - 1]) * 10 + DigitValue(s[|s| - 1])
  }

  /**
   * `parseInt(s)` on a string of decimal digits; `None` stands for `NaN`.
   * Signs, leading white space and trailing characters after the digits
   * are not modelled: such strings give `None`.
   */
  function ParseInt(s: string): (r: Option<int>)
    ensures r.Some? <==> s != [] && AllDigits(s)
    ensures r.Some? ==> r.value >= 0
  {
    if s != [] && AllDigits(s) then Some(DigitsValue(s)) else None
  }

  /** The decimal spelling of a natural number, as `String(n)` writes it. */
  function NatToString(n: nat): (s: string)
    ensures s != [] && AllDigits(s)
    ensures !IsWhite(s[0]) && !IsWhite(s[|s| - 1])
  {
    if n < 10 then [DigitChar(n)] else NatToString(n / 10) + [DigitChar(n % 10)]
  }

  /** `parseInt(String(n)) == n` for every natural number. */
  lemma {:induction false} ParseNatToString(n: nat)
    ensures ParseInt(NatToString(n)) == Some(n)
    ensures DigitsValue(NatToString(n)) == n
  {
    var s := NatToString(n);
    if n < 10 {
      assert s[..|s| - 1] == [];
      assert DigitsValue(s) == DigitsValue([]) * 10 + DigitValue(s[0]);
    } else {
      ParseNatToString(n / 10);
      assert s[..|s| - 1] == NatToString(n / 10);
      assert DigitValue(s[|s| - 1]) == n % 10;
    }
  }
}
