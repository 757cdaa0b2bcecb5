/**
 * The Python string operations the dashboard applies to form fields, `.env`
 * lines and subprocess output, with Python's own edge cases: str.strip(),
 * str.startswith(), the `in` substring test, str.split(c), str.join(),
 * str.splitlines(), file.readlines() and str(n) / int(s) for integers.
 */
module Text {

  import opened Options

  /** The characters Python's str.isspace() accepts, the ones str.strip() removes. */
  predicate IsSpace(c: char)
  {
    || c == ' '
    || ('\t' <= c <= '\r')
    || ('\U{1c}' <= c <= '\U{1f}')
    || c == '\U{85}' || c == '\U{a0}' || c == '\U{1680}'
    || ('\U{2000}' <= c <= '\U{200a}')
    || c == '\U{2028}' || c == '\U{2029}' || c == '\U{202f}' || c == '\U{205f}' || c == '\U{3000}'
  }

  /** s without its leading whitespace (str.lstrip()). */
  function TrimStart(s: string): string
  {
    if s != [] && IsSpace(s[0]) then TrimStart(s[1..]) else s
  }

  /** s without its trailing whitespace (str.rstrip()). */
  function TrimEnd(s: string): string
  {
    if s != [] && IsSpace(s[|s| - 1]) then TrimEnd(s[..|s| - 1]) else s
  }

  /** str.strip(): whitespace removed from both ends. */
  function Strip(s: string): string
  {
    TrimEnd(TrimStart(s))
  }

  lemma {:induction false} TrimStartSpec(s: string)
    ensures var r := TrimStart(s);
      |r| <= |s| && r == s[|s| - |r|..] && (r == [] || !IsSpace(r[0])) &&
      forall k :: 0 <= k < |s| - |r| ==> IsSpace(s[k])
  {
    if s != [] && IsSpace(s[0]) {
      var t := s[1..];
      TrimStartSpec(t);
      var r := TrimStart(t);
      assert TrimStart(s) == r;
      assert s[|s| - |r|..] == t[|t| - |r|..];
      forall k | 1 <= k < |s| - |r|
        ensures IsSpace(s[k])
      {
        assert s[k] == t[k - 1];
      }
    }
  }

  lemma {:induction false} TrimEndSpec(s: string)
    ensures var r := TrimEnd(s);
      |r| <= |s| && r == s[..|r|] && (r == [] || !IsSpace(r[|r| - 1])) &&
      forall k :: |r| <= k < |s| ==> IsSpace(s[k])
  {
    if s != [] && IsSpace(s[|s| - 1]) {
      var t := s[..|s| - 1];
      TrimEndSpec(t);
      var r := TrimEnd(t);
      assert TrimEnd(s) == r;
      assert s[..|r|] == t[..|r|];
      forall k | |r| <= k < |s| - 1
        ensures IsSpace(s[k])
      {
        assert s[k] == t[k];
      }
    }
  }

  /**
   * What str.strip() leaves: the piece of s after its i leading whitespace
   * characters, neither starting nor ending with whitespace, everything cut
   * off on either side being whitespace; nothing at all exactly when s is all
   * whitespace.
   */
  lemma StripSpec(s: string)
    ensures var r := Strip(s); var i := |s| - |TrimStart(s)|;
      && 0 <= i && i + |r| <= |s| && s[i..i + |r|] == r
      && (r == [] || (!IsSpace(r[0]) && !IsSpace(r[|r| - 1])))
      && (forall k :: 0 <= k < i ==> IsSpace(s[k]))
      && (forall k :: i + |r| <= k < |s| ==> IsSpace(s[k]))
      && (r == [] <==> forall k :: 0 <= k < |s| ==> IsSpace(s[k]))
  {
    var t := TrimStart(s);
    TrimStartSpec(s);
    TrimEndSpec(t);
    var r := Strip(s);
    var i := |s| - |t|;
    assert s[i..i + |r|] == t[..|r|];
    forall k | i + |r| <= k < |s|
      ensures IsSpace(s[k])
    {
      assert s[k] == t[k - i];
    }
    if r != [] {
      assert r[0] == t[0] == s[i];
    }
  }

  predicate StartsWith(s: string, prefix: string)
  {
    |prefix| <= |s| && s[..|prefix|] == prefix
  }

  /** Python's `sub in s`. */
  predicate Contains(s: string, sub: string)
    decreases |s|
  {
    StartsWith(s, sub) || (s != [] && Contains(s[1..], sub))
  }

  lemma {:induction false} TrimStartExtend(s: string, t: string)
    requires TrimStart(s) != []
    ensures TrimStart(s + t) == TrimStart(s) + t
  {
    if IsSpace(s[0]) {
      assert (s + t)[1..] == s[1..] + t;
      TrimStartExtend(s[1..], t);
    }
  }

  lemma {:induction false} TrimStartOfSpaces(s: string, c: char)
    requires TrimStart(s) == [] && IsSpace(c)
    ensures TrimStart(s + [c]) == []
  {
    if s != [] {
      assert (s + [c])[1..] == s[1..] + [c];
      TrimStartOfSpaces(s[1..], c);
    }
  }

  /** Appending whitespace (a line's newline, say) does not change its stripped form. */
  lemma StripAppendSpace(s: string, c: char)
    requires IsSpace(c)
    ensures Strip(s + [c]) == Strip(s)
  {
    if TrimStart(s) == [] {
      TrimStartOfSpaces(s, c);
    } else {
      TrimStartExtend(s, [c]);
      var x := TrimStart(s);
      assert (x + [c])[..|x|] == x;
    }
  }

  /** Leading whitespace in front of s is cut off by lstrip(). */
  lemma {:induction false} TrimStartPadding(pad: string, s: string)
    requires forall k :: 0 <= k < |pad| ==> IsSpace(pad[k])
    ensures TrimStart(pad + s) == TrimStart(s)
  {
    if pad != [] {
      assert (pad + s)[0] == pad[0];
      assert (pad + s)[1..] == pad[1..] + s;
      TrimStartPadding(pad[1..], s);
    } else {
      assert pad + s == s;
    }
  }

  /** Text that neither starts nor ends with whitespace is its own stripped form. */
  lemma StripUnchanged(s: string)
    requires s != [] && !IsSpace(s[0]) && !IsSpace(s[|s| - 1])
    ensures Strip(s) == s
  {
    assert TrimStart(s) == s;
  }

  /** A prefix whose ends are not whitespace survives stripping. */
  lemma StripKeepsPrefix(prefix: string, rest: string)
    requires prefix != [] && !IsSpace(prefix[0]) && !IsSpace(prefix[|prefix| - 1])
    ensures StartsWith(Strip(prefix + rest), prefix)
  {
    var s := prefix + rest;
    assert TrimStart(s) == s;
    TrimEndSpec(s);
    var r := TrimEnd(s);
    assert s[|prefix| - 1] == prefix[|prefix| - 1];
    assert |r| >= |prefix|;
    assert r[..|prefix|] == s[..|prefix|];
  }

  /** A last character that is not whitespace shields everything before it from rstrip(). */
  lemma {:induction false} TrimEndBehind(prefix: string, rest: string)
    requires prefix != [] && !IsSpace(prefix[|prefix| - 1])
    ensures TrimEnd(prefix + rest) == prefix + TrimEnd(rest)
  {
    if rest == [] {
      assert prefix + rest == prefix;
    } else if IsSpace(rest[|rest| - 1]) {
      var init := rest[..|rest| - 1];
      assert (prefix + rest)[..|prefix + rest| - 1] == prefix + init;
      TrimEndBehind(prefix, init);
    }
  }

  /** Stripping what rstrip() left is stripping. */
  lemma {:induction false} StripTrimEnd(s: string)
    ensures Strip(TrimEnd(s)) == Strip(s)
  {
    if s != [] && IsSpace(s[|s| - 1]) {
      var init := s[..|s| - 1];
      StripTrimEnd(init);
      StripAppendSpace(init, s[|s| - 1]);
      assert s == init + [s[|s| - 1]];
    }
  }

  /** str.strip() applied twice is applied once. */
  lemma StripTwice(s: string)
    ensures Strip(Strip(s)) == Strip(s)
  {
    StripSpec(s);
    if Strip(s) != [] {
      StripUnchanged(Strip(s));
    }
  }

  /** Two different prefixes of the same length cannot both start s. */
  lemma StartsWithBoth(s: string, p: string, q: string)
    requires |p| == |q| && p != q
    ensures !(StartsWith(s, p) && StartsWith(s, q))
  {
  }

  /** Index of the first c in s, or |s| when there is none (str.find, with |s| for -1). */
  function IndexOf(s: string, c: char): (i: nat)
    ensures i <= |s| && (i < |s| ==> s[i] == c) && c !in s[..i]
  {
    if s == [] then 0
    else if s[0] == c then 0
    else
      assert s[..1 + IndexOf(s[1..], c)] == [s[0]] + s[1..][..IndexOf(s[1..], c)];
      1 + IndexOf(s[1..], c)
  }

  lemma IndexOfAt(a: string, c: char, b: string)
    requires c !in a
    ensures IndexOf(a + [c] + b, c) == |a|
  {
    var s := a + [c] + b;
    var i := IndexOf(s, c);
    assert s[|a|] == c;
  }

  lemma IndexOfNone(a: string, c: char)
    requires c !in a
    ensures IndexOf(a, c) == |a|
  {
    var i := IndexOf(a, c);
  }

  /** str.split(c) for a one-character separator: always at least one part, none holding c. */
  function Split(s: string, c: char): (parts: seq<string>)
    ensures |parts| >= 1
    ensures forall k :: 0 <= k < |parts| ==> c !in parts[k]
    decreases |s|
  {
    var i := IndexOf(s, c);
    if i == |s| then [s] else [s[..i]] + Split(s[i + 1..], c)
  }

  /** The separator-string `[c]` joined between the parts: `c.join(parts)`. */
  function Join(c: char, parts: seq<string>): string
  {
    if |parts| == 0 then ""
    else if |parts| == 1 then parts[0]
    else parts[0] + [c] + Join(c, parts[1..])
  }

  /** Splitting a joined sequence on its separator gives the parts back. */
  lemma {:induction false} SplitJoin(c: char, parts: seq<string>)
    requires |parts| >= 1
    requires forall k :: 0 <= k < |parts| ==> c !in parts[k]
    ensures Split(Join(c, parts), c) == parts
  {
    if |parts| == 1 {
      IndexOfNone(parts[0], c);
    } else {
      var rest := Join(c, parts[1..]);
      assert Join(c, parts) == parts[0] + [c] + rest;
      SplitAt(parts[0], c, rest);
      SplitJoin(c, parts[1..]);
      assert parts == [parts[0]] + parts[1..];
    }
  }

  /** Splitting a concatenation at its first separator; the rest is split on its own. */
  lemma SplitAt(a: string, c: char, b: string)
    requires c !in a
    ensures Split(a + [c] + b, c) == [a] + Split(b, c)
  {
    var s := a + [c] + b;
    IndexOfAt(a, c, b);
    assert s[..|a|] == a;
    assert s[|a| + 1..] == b;
  }

  /** A string with no separator splits into itself alone. */
  lemma SplitNone(a: string, c: char)
    requires c !in a
    ensures Split(a, c) == [a]
  {
    IndexOfNone(a, c);
  }

  /** The line boundaries of str.splitlines(). */
  predicate IsLineBreak(c: char)
  {
    || ('\n' <= c <= '\r')
    || ('\U{1c}' <= c <= '\U{1e}')
    || c == '\U{85}' || c == '\U{2028}' || c == '\U{2029}'
  }

  /** Index of the first line boundary of s, or |s|. */
  function BreakIndex(s: string): (i: nat)
    ensures i <= |s| && (i < |s| ==> IsLineBreak(s[i]))
    ensures forall k :: 0 <= k < i ==> !IsLineBreak(s[k])
  {
    if s == [] || IsLineBreak(s[0]) then 0 else 1 + BreakIndex(s[1..])
  }

  /**
   * str.splitlines(): the lines without their boundaries; "\r\n" is one
   * boundary and a boundary at the very end opens no further line.
   */
  function SplitLines(s: string): (lines: seq<string>)
    ensures forall k, j :: 0 <= k < |lines| && 0 <= j < |lines[k]| ==> !IsLineBreak(lines[k][j])
    ensures s != [] ==> |lines| >= 1
    decreases |s|
  {
    if s == [] then []
    else
      var i := BreakIndex(s);
      if i == |s| then [s]
      else
        var next := if s[i] == '\r' && i + 1 < |s| && s[i + 1] == '\n' then i + 2 else i + 1;
        [s[..i]] + SplitLines(s[next..])
  }

  /** A '\n' after text without line breaks ends the first line; the rest is split on its own. */
  lemma SplitLinesAtBreak(a: string, b: string)
    requires forall k :: 0 <= k < |a| ==> !IsLineBreak(a[k])
    ensures SplitLines(a + "\n" + b) == [a] + SplitLines(b)
  {
    var s := a + "\n" + b;
    var i := BreakIndex(s);
    assert s[|a|] == '\n';
    assert forall k :: 0 <= k < |a| ==> s[k] == a[k];
    assert i == |a|;
    assert s[..i] == a;
    assert s[i + 1..] == b;
  }

  /** file.readlines(): the text cut after every '\n', which each line keeps. */
  function ReadLines(s: string): seq<string>
    decreases |s|
  {
    if s == [] then []
    else
      var i := IndexOf(s, '\n');
      if i == |s| then [s] else [s[..i + 1]] + ReadLines(s[i + 1..])
  }

  /** A line as readlines returns it when more text follows: one '\n', at its end. */
  predicate IsLine(l: string)
  {
    l != [] && l[|l| - 1] == '\n' && '\n' !in l[..|l| - 1]
  }

  lemma LineOf(s: string)
    requires '\n' !in s
    ensures IsLine(s + "\n")
  {
    assert (s + "\n")[..|s|] == s;
  }

  /** Text without '\n' put in front of a line keeps it one line. */
  lemma GlueLine(s: string, l: string)
    requires '\n' !in s && IsLine(l)
    ensures IsLine(s + l)
  {
    assert (s + l)[..|s + l| - 1] == s + l[..|l| - 1];
  }

  /** A line comes back first, whatever follows it. */
  lemma ReadLinesCons(l: string, rest: string)
    requires IsLine(l)
    ensures ReadLines(l + rest) == [l] + ReadLines(rest)
  {
    var s := l + rest;
    assert s == l[..|l| - 1] + ['\n'] + rest;
    IndexOfAt(l[..|l| - 1], '\n', rest);
    assert s[..|l|] == l;
    assert s[|l|..] == rest;
  }

  /** Two lines are read back as those two lines. */
  lemma ReadLinesTwo(a: string, b: string)
    requires IsLine(a) && IsLine(b)
    ensures ReadLines(a + b) == [a, b]
  {
    ReadLinesCons(a, b);
    ReadLinesCons(b, "");
    assert b + "" == b;
  }

  /** Text with no '\n' is read as one line. */
  lemma ReadLinesSingle(l: string)
    requires l != [] && '\n' !in l
    ensures ReadLines(l) == [l]
  {
    IndexOfNone(l, '\n');
  }

  /** file.writelines(lines): the lines written one after the other, nothing added. */
  function Concat(lines: seq<string>): string
  {
    if lines == [] then "" else lines[0] + Concat(lines[1..])
  }

  lemma ConcatThree(a: string, b: string, c: string)
    ensures Concat([a, b, c]) == a + b + c
  {
    assert [a, b, c][1..] == [b, c] && [b, c][1..] == [c] && [c][1..] == [];
    assert Concat([c]) == c;
    assert Concat([b, c]) == b + c;
  }

  /** s[:n] in Python: the first n characters, or all of s when it is shorter. */
  function Prefix(s: string, n: nat): (r: string)
    ensures |r| == Min(n, |s|) && r == s[..|r|]
  {
    s[..Min(n, |s|)]
  }

  predicate IsDigit(c: char)
  {
    '0' <= c <= '9'
  }

  /** Decimal digits with single underscores between digits, the form int(s) accepts after an optional sign. */
  predicate IsDigitRun(s: string)
  {
    && s != [] && IsDigit(s[0]) && IsDigit(s[|s| - 1])
    && forall i :: 0 <= i < |s| ==>
         IsDigit(s[i]) || (s[i] == '_' && 0 < i < |s| - 1 && IsDigit(s[i - 1]) && IsDigit(s[i + 1]))
  }

  /** The number the digits of s spell, underscores skipped. */
  function DigitsValue(s: string): nat
  {
    if s == [] then 0
    else if IsDigit(s[|s| - 1]) then 10 * DigitsValue(s[..|s| - 1]) + (s[|s| - 1] as int - '0' as int)
    else DigitsValue(s[..|s| - 1])
  }

  /** int(s) for a str: surrounding whitespace, then an optional sign and decimal digits; None for a ValueError. */
  function ParseInt(s: string): Option<int>
  {
    var t := Strip(s);
    if t != [] && (t[0] == '+' || t[0] == '-') then
      var v: int := DigitsValue(t[1..]);
      if IsDigitRun(t[1..]) then Some(if t[0] == '-' then -v else v) else None
    else if IsDigitRun(t) then Some(DigitsValue(t))
    else None
  }

  function DigitChar(d: nat): char
    requires d < 10
  {
    ('0' as int + d) as char
  }

  /** str(n) for a natural number. */
  function Decimal(n: nat): string
  {
    if n < 10 then [DigitChar(n)] else Decimal(n / 10) + [DigitChar(n % 10)]
  }

  /** str(i) for an integer. */
  function IntToString(i: int): string
  {
    if i < 0 then "-" + Decimal(-i) else Decimal(i)
  }

  /** str(n) is a run of digits that spells n. */
  lemma {:induction false} DecimalSpells(n: nat)
    ensures Decimal(n) != [] && forall k :: 0 <= k < |Decimal(n)| ==> IsDigit(Decimal(n)[k])
    ensures DigitsValue(Decimal(n)) == n
  {
    if n >= 10 {
      var s := Decimal(n);
      DecimalSpells(n / 10);
      assert s[..|s| - 1] == Decimal(n / 10);
    }
  }

  /** A run of digits alone is a digit run for int(). */
  lemma DigitsAreRun(s: string)
    requires s != [] && forall k :: 0 <= k < |s| ==> IsDigit(s[k])
    ensures IsDigitRun(s)
  {
  }

  /** int(str(i)) == i: the integer written out in decimal is read back. */
  lemma ParseIntToString(i: int)
    ensures ParseInt(IntToString(i)) == Some(i)
  {
    var n: nat := if i < 0 then -i else i;
    var d := Decimal(n);
    DecimalSpells(n);
    DigitsAreRun(d);
    assert !IsSpace(d[|d| - 1]) && !IsSpace(d[0]);
    if i < 0 {
      var t := "-" + d;
      assert t[0] == '-' && t[1..] == d && t[|t| - 1] == d[|d| - 1];
      StripUnchanged(t);
    } else {
      StripUnchanged(d);
    }
  }
}
