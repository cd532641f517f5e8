/** The Python 2 `str` operations the core relies on. A Python 2 `str` is
    a byte string; here it is a Dafny `string` holding one character per
    byte, and the character classes are the ASCII ones Python 2 uses. */
module Text {
  import opened Common

  predicate IsDigit(c: char) { '0' <= c <= '9' }

  /** The characters `str.split()` treats as whitespace. */
  predicate IsSpace(c: char)
  {
    c == ' ' || c == '\t' || c == '\n' || c == '\r' || c == '\U{B}' || c == '\U{C}'
  }

  /** The characters `str.splitlines()` ends a line at. */
  predicate IsLineBreak(c: char) { c == '\n' || c == '\r' }

  predicate AllDigits(s: string) { forall i :: 0 <= i < |s| ==> IsDigit(s[i]) }

  predicate NoSpace(s: string) { forall i :: 0 <= i < |s| ==> !IsSpace(s[i]) }

  predicate NoLineBreak(s: string) { forall i :: 0 <= i < |s| ==> !IsLineBreak(s[i]) }

  predicate StartsWith(s: string, prefix: string)
  {
    |prefix| <= |s| && s[..|prefix|] == prefix
  }

  predicate EndsWith(s: string, suffix: string)
  {
    |suffix| <= |s| && s[|s| - |suffix|..] == suffix
  }

  // ---------------------------------------------------------------------
  // str.split() with no argument

  /** Length of the run of non-whitespace characters that starts `s`. */
  function WordLen(s: string): (n: nat)
    ensures n <= |s|
    ensures forall i :: 0 <= i < n ==> !IsSpace(s[i])
    ensures n < |s| ==> IsSpace(s[n])
  {
    if s == [] || IsSpace(s[0]) then 0 else 1 + WordLen(s[1..])
  }

  /** `s.split()`: the maximal runs of non-whitespace characters, in order.
      Every field is non-empty and holds no whitespace. */
  function Fields(s: string): (r: seq<string>)
    ensures forall k :: 0 <= k < |r| ==> r[k] != [] && NoSpace(r[k])
    decreases |s|
  {
    if s == [] then []
    else if IsSpace(s[0]) then Fields(s[1..])
    else
      var n := WordLen(s);
      [s[..n]] + Fields(s[n..])
  }

  /** `" ".join(words)`. */
  function JoinWords(words: seq<string>): string
  {
    if words == [] then ""
    else if |words| == 1 then words[0]
    else words[0] + " " + JoinWords(words[1..])
  }

  /** A word followed by a space splits off as the first field. */
  lemma FieldsWordThenSpace(w: string, rest: string)
    requires w != [] && NoSpace(w)
    ensures Fields(w + (" " + rest)) == [w] + Fields(rest)
  {
    var s := w + (" " + rest);
    WordLenPrefix(w, " " + rest);
    assert s[0] == w[0];
    assert s[..|w|] == w;
    assert s[|w|..] == " " + rest;
    assert Fields(s) == [w] + Fields(" " + rest);
    assert (" " + rest)[1..] == rest;
  }

  /** A single word is a single field. */
  lemma FieldsOneWord(w: string)
    requires w != [] && NoSpace(w)
    ensures Fields(w) == [w]
  {
    WordLenPrefix(w, "");
    assert w + "" == w;
    assert w[|w|..] == [];
  }

  /** Splitting a space-joined text gives back its words, provided each is
      non-empty and holds no whitespace. */
  lemma {:induction false} FieldsJoinWords(words: seq<string>)
    requires forall k :: 0 <= k < |words| ==> words[k] != [] && NoSpace(words[k])
    ensures Fields(JoinWords(words)) == words
    decreases |words|
  {
    if |words| == 1 {
      FieldsOneWord(words[0]);
    } else if |words| > 1 {
      assert JoinWords(words) == words[0] + (" " + JoinWords(words[1..]));
      FieldsWordThenSpace(words[0], JoinWords(words[1..]));
      FieldsJoinWords(words[1..]);
    }
  }


  /** The first word of `a + b` is `a`, when `a` is a non-empty word and
      `b` is empty or starts with whitespace. */
  lemma {:induction false} WordLenPrefix(a: string, b: string)
    requires NoSpace(a)
    requires b != [] ==> IsSpace(b[0])
    ensures WordLen(a + b) == |a|
    decreases |a|
  {
    if a != [] {
      assert (a + b)[1..] == a[1..] + b;
      WordLenPrefix(a[1..], b);
    } else {
      assert a + b == b;
    }
  }

  // ---------------------------------------------------------------------
  // str.splitlines() on a Python 2 byte string: lines end at "\n", "\r" or
  // "\r\n"; the line breaks are dropped and a final break adds no line.

  function LineLen(s: string): (n: nat)
    ensures n <= |s|
    ensures forall i :: 0 <= i < n ==> !IsLineBreak(s[i])
    ensures n < |s| ==> IsLineBreak(s[n])
  {
    if s == [] || IsLineBreak(s[0]) then 0 else 1 + LineLen(s[1..])
  }

  function SplitLines(s: string): (r: seq<string>)
    ensures forall k :: 0 <= k < |r| ==> NoLineBreak(r[k])
    ensures s == [] <==> r == []
    decreases |s|
  {
    if s == [] then []
    else
      var n := LineLen(s);
      if n == |s| then [s]
      else if s[n] == '\r' && n + 1 < |s| && s[n + 1] == '\n' then [s[..n]] + SplitLines(s[n + 2..])
      else [s[..n]] + SplitLines(s[n + 1..])
  }

  /** `"\n".join(lines)`. */
  function JoinLines(lines: seq<string>): string
  {
    if lines == [] then ""
    else if |lines| == 1 then lines[0]
    else lines[0] + "\n" + JoinLines(lines[1..])
  }

  /** Splitting a newline-joined text gives back its lines, provided none
      holds a line break and the last is not empty. */
  lemma {:induction false} SplitJoinLines(lines: seq<string>)
    requires forall k :: 0 <= k < |lines| ==> NoLineBreak(lines[k])
    requires lines != [] ==> lines[|lines| - 1] != []
    ensures SplitLines(JoinLines(lines)) == lines
    decreases |lines|
  {
    if |lines| == 0 {
    } else if |lines| == 1 {
      assert LineLen(lines[0]) == |lines[0]| by { LineLenFull(lines[0]); }
    } else {
      var s := JoinLines(lines);
      var rest := JoinLines(lines[1..]);
      assert s == lines[0] + ("\n" + rest);
      LineLenPrefix(lines[0], "\n" + rest);
      assert s[|lines[0]|] == '\n';
      assert s[..|lines[0]|] == lines[0];
      assert s[|lines[0]| + 1..] == rest;
      SplitJoinLines(lines[1..]);
      assert rest != [] by { JoinLinesNonEmpty(lines[1..]); }
    }
  }

  lemma {:induction false} LineLenFull(s: string)
    requires NoLineBreak(s)
    ensures LineLen(s) == |s|
    decreases |s|
  {
    if s != [] {
      LineLenFull(s[1..]);
    }
  }

  lemma {:induction false} LineLenPrefix(a: string, b: string)
    requires NoLineBreak(a) && b != [] && IsLineBreak(b[0])
    ensures LineLen(a + b) == |a|
    decreases |a|
  {
    if a != [] {
      assert (a + b)[1..] == a[1..] + b;
      LineLenPrefix(a[1..], b);
    }
  }

  lemma {:induction false} JoinLinesNonEmpty(lines: seq<string>)
    requires lines != [] && lines[|lines| - 1] != []
    ensures JoinLines(lines) != []
    decreases |lines|
  {
    if |lines| > 1 {
      JoinLinesNonEmpty(lines[1..]);
    }
  }

  // ---------------------------------------------------------------------
  // int(s) and str(n) in base 10

  function DigitValue(c: char): nat
    requires IsDigit(c)
  {
    (c as int) - ('0' as int)
  }

  function DigitChar(d: nat): (c: char)
    requires d < 10
    ensures IsDigit(c) && DigitValue(c) == d
  {
    (('0' as int) + d) as char
  }

  /** The value of a run of decimal digits, most significant first. */
  function DigitsValue(s: string): nat
    requires AllDigits(s)
  {
    if s == [] then 0 else DigitsValue(s[..|s| - 1]) * 10 + DigitValue(s[|s| - 1])
  }

  /** Python's `int(s)` on a string with no surrounding whitespace: an
      optional sign followed by one or more decimal digits (leading zeros
      allowed); anything else raises ValueError, here `None`. */
  function ParseInt(s: string): Option<int>
  {
    if s != [] && (s[0] == '-' || s[0] == '+') then
      if |s| > 1 && AllDigits(s[1..]) then
        Some(if s[0] == '-' then 0 - DigitsValue(s[1..]) else DigitsValue(s[1..]))
      else None
    else if s != [] && AllDigits(s) then Some(DigitsValue(s))
    else None
  }

  /** `str(n)` for a natural number: its shortest decimal spelling. */
  function NatToString(n: nat): (r: string)
    ensures r != [] && AllDigits(r)
  {
    if n < 10 then [DigitChar(n)] else NatToString(n / 10) + [DigitChar(n % 10)]
  }

  /** `str(i)` for an integer. */
  function IntToString(i: int): (r: string)
    ensures r != [] && NoSpace(r) && NoLineBreak(r)
  {
    if i < 0 then "-" + NatToString(-i) else NatToString(i)
  }

  lemma {:induction false} NatToStringValue(n: nat)
    ensures DigitsValue(NatToString(n)) == n
  {
    if n >= 10 {
      var s := NatToString(n);
      assert s[..|s| - 1] == NatToString(n / 10);
      NatToStringValue(n / 10);
    }
  }

  /** `int(str(i)) == i`. */
  lemma IntToStringRoundTrip(i: int)
    ensures ParseInt(IntToString(i)) == Some(i)
  {
    var s := IntToString(i);
    if i < 0 {
      assert s[0] == '-' && |s| > 1;
      assert s[1..] == NatToString(-i);
      NatToStringValue(-i);
    } else {
      assert s == NatToString(i);
      assert s[0] != '-' && s[0] != '+' by { assert IsDigit(s[0]); }
      NatToStringValue(i);
    }
  }

  // ---------------------------------------------------------------------
  // str.capitalize()

  function Upper(c: char): char
  {
    if 'a' <= c <= 'z' then (c as int - 32) as char else c
  }

  function Lower(c: char): char
  {
    if 'A' <= c <= 'Z' then (c as int + 32) as char else c
  }

  function LowerAll(s: string): (r: string)
    ensures |r| == |s| && forall i :: 0 <= i < |s| ==> r[i] == Lower(s[i])
  {
    if s == [] then [] else [Lower(s[0])] + LowerAll(s[1..])
  }

  /** `s.capitalize()`: the first character upper-cased, every other one
      lower-cased. */
  function Capitalize(s: string): (r: string)
    ensures |r| == |s|
  {
    if s == [] then [] else [Upper(s[0])] + LowerAll(s[1..])
  }

  /** A word with no upper-case letter after its first character keeps its
      tail when capitalised. */
  lemma CapitalizeKeepsLowerTail(s: string)
    requires s != []
    requires forall i :: 1 <= i < |s| ==> !('A' <= s[i] <= 'Z')
    ensures Capitalize(s) == [Upper(s[0])] + s[1..]
  {
    assert LowerAll(s[1..]) == s[1..];
  }

  /** Capitalising twice is capitalising once. */
  lemma CapitalizeIdempotent(s: string)
    ensures Capitalize(Capitalize(s)) == Capitalize(s)
  {
    if s != [] {
      var t := LowerAll(s[1..]);
      assert Capitalize(s)[1..] == t;
      forall i | 0 <= i < |t| ensures Lower(t[i]) == t[i] { }
      assert LowerAll(t) == t;
    }
  }
}
