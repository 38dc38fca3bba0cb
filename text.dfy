/**
 * The small part of Python's string and integer semantics that the bot's
 * command handlers rely on: whitespace stripping, ASCII case mapping,
 * splitting and joining on one character, `int(...)` on decimal text and
 * `str(...)` of an integer.
 */
module Text {

  datatype Option<+T> = None | Some(value: T)

  datatype Result<+T, +E> = Ok(value: T) | Err(error: E) {
    predicate IsFailure() { Err? }
    function PropagateFailure<U>(): Result<U, E>
      requires Err?
    {
      Err(error)
    }
    function Extract(): T
      requires Ok?
    {
      value
    }
  }

  // ---------------------------------------------------------------------
  // Characters
  // ---------------------------------------------------------------------

  /** Python's `str.isspace()`, which is also what `\s` and `\S` use in a
      regular expression over `str`. */
  predicate IsSpace(c: char) {
    || '\t' <= c <= '\r'
    || '\U{1C}' <= c <= '\U{1F}'
    || c == ' '
    || c == '\U{85}'
    || c == '\U{A0}'
    || c == '\U{1680}'
    || '\U{2000}' <= c <= '\U{200A}'
    || c == '\U{2028}'
    || c == '\U{2029}'
    || c == '\U{202F}'
    || c == '\U{205F}'
    || c == '\U{3000}'
  }

  /** The whitespace `int()` ignores around its digits: the ASCII
      `\t \n \v \f \r` and space, and the non-ASCII characters of
      `IsSpace`. Unlike `strip()`, it keeps U+001C to U+001F. */
  predicate IsIntSpace(c: char) {
    || '\t' <= c <= '\r'
    || c == ' '
    || (c > '\U{7F}' && IsSpace(c))
  }

  predicate IsDigit(c: char) { '0' <= c <= '9' }

  predicate IsUpper(c: char) { 'A' <= c <= 'Z' }

  predicate IsLower(c: char) { 'a' <= c <= 'z' }

  predicate IsLetter(c: char) { IsUpper(c) || IsLower(c) }

  function LowerChar(c: char): char {
    if IsUpper(c) then (c as int + 32) as char else c
  }

  function UpperChar(c: char): char {
    if IsLower(c) then (c as int - 32) as char else c
  }

  function DigitValue(c: char): (d: nat)
    requires IsDigit(c)
    ensures d < 10
  {
    c as int - '0' as int
  }

  function DigitChar(d: nat): (c: char)
    requires d < 10
    ensures IsDigit(c) && DigitValue(c) == d
  {
    ('0' as int + d) as char
  }

  // ---------------------------------------------------------------------
  // str.strip(), str.lower(), str.title()
  // ---------------------------------------------------------------------

  /** `s.lstrip()`: the suffix of `s` left after removing leading whitespace. */
  function TrimLeft(s: string): (r: string)
    ensures |r| <= |s| && r == s[|s| - |r|..]
    ensures r == [] || !IsSpace(r[0])
    ensures forall i :: 0 <= i < |s| - |r| ==> IsSpace(s[i])
  {
    if s != [] && IsSpace(s[0]) then TrimLeft(s[1..]) else s
  }

  /** `s.rstrip()`: the prefix of `s` left after removing trailing whitespace. */
  function TrimRight(s: string): (r: string)
    ensures |r| <= |s| && r == s[..|r|]
    ensures r == [] || !IsSpace(r[|r| - 1])
    ensures forall i :: |r| <= i < |s| ==> IsSpace(s[i])
  {
    if s != [] && IsSpace(s[|s| - 1]) then TrimRight(s[..|s| - 1]) else s
  }

  /** `s.strip()` */
  function Strip(s: string): string {
    TrimRight(TrimLeft(s))
  }

  /** A string that neither starts nor ends with whitespace is its own strip. */
  lemma StripUnchanged(s: string)
    requires s == [] || (!IsSpace(s[0]) && !IsSpace(s[|s| - 1]))
    ensures Strip(s) == s
  {
  }

  /** `s.lower()`, restricted to ASCII letters. */
  function Lower(s: string): (r: string)
    ensures |r| == |s|
  {
    seq(|s|, i requires 0 <= i < |s| => LowerChar(s[i]))
  }

  lemma LowerOfConcat(a: string, b: string)
    ensures Lower(a + b) == Lower(a) + Lower(b)
  {
  }

  /** `s.title()`, restricted to ASCII letters: a letter is upper-cased when
      the character before it is not a letter, and lower-cased otherwise. */
  function Title(s: string): (r: string)
    ensures |r| == |s|
  {
    TitleAfter(s, false)
  }

  function TitleAfter(s: string, afterLetter: bool): (r: string)
    ensures |r| == |s|
  {
    if s == [] then []
    else
      var c := if afterLetter then LowerChar(s[0]) else UpperChar(s[0]);
      [c] + TitleAfter(s[1..], IsLetter(s[0]))
  }

  /** Title-casing only changes case: lower-casing its result gives back the
      lower-cased name. */
  lemma {:induction false} LowerOfTitle(s: string)
    ensures Lower(Title(s)) == Lower(s)
  {
    LowerOfTitleAfter(s, false);
  }

  lemma {:induction false} LowerOfTitleAfter(s: string, afterLetter: bool)
    ensures Lower(TitleAfter(s, afterLetter)) == Lower(s)
  {
    if s != [] {
      LowerOfTitleAfter(s[1..], IsLetter(s[0]));
      var c := if afterLetter then LowerChar(s[0]) else UpperChar(s[0]);
      assert LowerChar(c) == LowerChar(s[0]);
      LowerOfConcat([c], TitleAfter(s[1..], IsLetter(s[0])));
      LowerOfConcat([s[0]], s[1..]);
      assert s == [s[0]] + s[1..];
    }
  }

  // ---------------------------------------------------------------------
  // str.split(sep), str.split(sep, 1), sep.join(parts)
  // ---------------------------------------------------------------------

  function Count(s: string, c: char): nat {
    if s == [] then 0 else (if s[0] == c then 1 else 0) + Count(s[1..], c)
  }

  /** `s.split(c)` for a one-character separator: never empty, and no piece
      contains the separator. */
  function Split(s: string, c: char): (r: seq<string>)
    ensures |r| >= 1
    ensures forall i :: 0 <= i < |r| ==> c !in r[i]
  {
    if s == [] then [[]]
    else if s[0] == c then [[]] + Split(s[1..], c)
    else
      var rest := Split(s[1..], c);
      [[s[0]] + rest[0]] + rest[1..]
  }

  /** `sep.join(parts)` */
  function Join(parts: seq<string>, sep: string): string {
    if parts == [] then []
    else if |parts| == 1 then parts[0]
    else parts[0] + sep + Join(parts[1..], sep)
  }

  /** There is one piece more than there are separators. */
  lemma {:induction false} SplitCount(s: string, c: char)
    ensures |Split(s, c)| == Count(s, c) + 1
  {
    if s != [] {
      SplitCount(s[1..], c);
    }
  }

  /** Joining the pieces with the separator gives back the string. */
  lemma {:induction false} JoinSplit(s: string, c: char)
    ensures Join(Split(s, c), [c]) == s
  {
    if s != [] {
      JoinSplit(s[1..], c);
      var rest := Split(s[1..], c);
      if s[0] == c {
        assert Split(s, c) == [[]] + rest;
        JoinAfterEmpty(rest, [c]);
        assert s == [c] + s[1..];
      } else {
        assert Split(s, c) == [[s[0]] + rest[0]] + rest[1..];
        JoinExtendFirst(s[0], rest, [c]);
        assert s == [s[0]] + s[1..];
      }
    }
  }

  lemma JoinAfterEmpty(rest: seq<string>, sep: string)
    requires |rest| >= 1
    ensures Join([[]] + rest, sep) == sep + Join(rest, sep)
  {
    assert ([[]] + rest)[1..] == rest;
  }

  lemma JoinExtendFirst(x: char, rest: seq<string>, sep: string)
    requires |rest| >= 1
    ensures Join([[x] + rest[0]] + rest[1..], sep) == [x] + Join(rest, sep)
  {
    var r := [[x] + rest[0]] + rest[1..];
    if |rest| > 1 {
      assert r[1..] == rest[1..];
      assert Join(r, sep) == [x] + rest[0] + sep + Join(rest[1..], sep);
    }
  }

  /** Index of the first occurrence of `c` in `s`. */
  function IndexOf(s: string, c: char): (i: nat)
    requires c in s
    ensures i < |s| && s[i] == c && c !in s[..i]
  {
    if s[0] == c then 0
    else
      assert c in s[1..] by { assert s == [s[0]] + s[1..]; }
      var j := IndexOf(s[1..], c);
      assert s[..j + 1] == [s[0]] + s[1..][..j];
      1 + j
  }

  /** `s.split(c, 1)[1]` when `c in s`: everything after the first `c`. */
  function AfterFirst(s: string, c: char): string
    requires c in s
  {
    s[IndexOf(s, c) + 1..]
  }

  /** `s.split(c, 1)[0]`: everything before the first `c`, or all of `s`. */
  function BeforeFirst(s: string, c: char): string {
    if c in s then s[..IndexOf(s, c)] else s
  }

  /** `s.split(c, 1)` cuts `s` at its first `c`: the part before holds no
      `c`, and the two parts around that `c` make up `s`. */
  lemma SplitAtFirst(s: string, c: char)
    ensures c !in BeforeFirst(s, c)
    ensures c in s ==> BeforeFirst(s, c) + [c] + AfterFirst(s, c) == s
    ensures c !in s ==> BeforeFirst(s, c) == s
  {
    if c in s {
      var i := IndexOf(s, c);
      assert s == s[..i] + [c] + s[i + 1..];
    }
  }

  // ---------------------------------------------------------------------
  // Decimal numbers: int(text) and str(n)
  // ---------------------------------------------------------------------

  predicate AllDigits(s: string) {
    forall i :: 0 <= i < |s| ==> IsDigit(s[i])
  }

  /** `s.isdigit()` over ASCII: non-empty and only digits. */
  predicate IsDigits(s: string) {
    |s| > 0 && AllDigits(s)
  }

  /** The value of a run of decimal digits (leading zeros allowed). */
  function DigitsValue(s: string): nat
    requires AllDigits(s)
  {
    if s == [] then 0 else 10 * DigitsValue(s[..|s| - 1]) + DigitValue(s[|s| - 1])
  }

  /** `str(n)` for a natural number: no leading zeros, at least one digit. */
  function NatToString(n: nat): (s: string)
    ensures IsDigits(s)
    ensures |s| > 1 ==> s[0] != '0'
  {
    if n < 10 then [DigitChar(n)] else NatToString(n / 10) + [DigitChar(n % 10)]
  }

  /** `str(n)` */
  function IntToString(n: int): string {
    if n < 0 then "-" + NatToString(-n) else NatToString(n)
  }

  /** The value of the digit body `int()` accepts: decimal digits, where a
      single `_` may separate two digits. `None` for anything else, the empty
      body included. */
  function GroupsValue(b: string): Option<nat>
    decreases |b|
  {
    if b == [] || !IsDigit(b[|b| - 1]) then None
    else if |b| == 1 then Some(DigitValue(b[0]))
    else
      var rest := if b[|b| - 2] == '_' then b[..|b| - 2] else b[..|b| - 1];
      match GroupsValue(rest)
      case None => None
      case Some(v) => Some(10 * v + DigitValue(b[|b| - 1]))
  }

  /** Python's `int(s)` in base 10, over ASCII digits: the `IsIntSpace`
      whitespace around the text is ignored, then one optional sign and
      the digit body. `None` stands for the ValueError it raises. */
  function ParseInt(s: string): Option<int>
    decreases |s|
  {
    if s != [] && IsIntSpace(s[0]) then ParseInt(s[1..])
    else if s != [] && IsIntSpace(s[|s| - 1]) then ParseInt(s[..|s| - 1])
    else ParseSigned(s)
  }

  /** `int(t)` for text that carries no surrounding whitespace. */
  function ParseSigned(t: string): Option<int> {
    if |t| > 0 && (t[0] == '-' || t[0] == '+') then
      match GroupsValue(t[1..])
      case None => None
      case Some(v) => var i: int := if t[0] == '-' then 0 - v as int else v; Some(i)
    else
      match GroupsValue(t)
      case None => None
      case Some(v) => var i: int := v; Some(i)
  }

  /** The text between the whitespace `int()` ignores. */
  function IntStrip(s: string): (r: string)
    ensures r == [] || (!IsIntSpace(r[0]) && !IsIntSpace(r[|r| - 1]))
  {
    IntTrimRight(IntTrimLeft(s))
  }

  function IntTrimLeft(s: string): (r: string)
    ensures |r| <= |s| && r == s[|s| - |r|..]
    ensures r == [] || !IsIntSpace(r[0])
  {
    if s != [] && IsIntSpace(s[0]) then IntTrimLeft(s[1..]) else s
  }

  function IntTrimRight(s: string): (r: string)
    ensures |r| <= |s| && r == s[..|r|]
    ensures r == [] || !IsIntSpace(r[|r| - 1])
    ensures s == [] || !IsIntSpace(s[0]) ==> r == [] || !IsIntSpace(r[0])
  {
    if s != [] && IsIntSpace(s[|s| - 1]) then IntTrimRight(s[..|s| - 1]) else s
  }

  /** `int(s)` parses what is left once the whitespace it ignores is
      removed from both ends. */
  lemma {:induction false} ParseIntIsParseOfIntStrip(s: string)
    ensures ParseInt(s) == ParseSigned(IntStrip(s))
    decreases |s|
  {
    if s != [] && IsIntSpace(s[0]) {
      assert IntTrimLeft(s) == IntTrimLeft(s[1..]);
      ParseIntIsParseOfIntStrip(s[1..]);
    } else if s != [] && IsIntSpace(s[|s| - 1]) {
      var t := s[..|s| - 1];
      assert IntTrimLeft(t) == t by {
        if t != [] {
          assert t[0] == s[0];
        }
      }
      assert IntTrimLeft(s) == s;
      assert IntTrimRight(s) == IntTrimRight(t);
      ParseIntIsParseOfIntStrip(t);
    } else {
      assert IntTrimLeft(s) == s && IntTrimRight(s) == s;
    }
  }

  /** A character `strip()` removes that `int()` keeps. */
  predicate IsSeparatorControl(c: char) { '\U{1C}' <= c <= '\U{1F}' }

  /** Away from U+001C..U+001F, `int()` ignores exactly what `strip()`
      removes, so `int(s) == int(s.strip())`. */
  lemma ParseIntIsParseOfStrip(s: string)
    requires forall i :: 0 <= i < |s| ==> !IsSeparatorControl(s[i])
    ensures ParseInt(s) == ParseSigned(Strip(s))
  {
    ParseIntIsParseOfIntStrip(s);
    IntStripIsStrip(s);
  }

  /** Away from U+001C..U+001F the two strips agree. */
  lemma IntStripIsStrip(s: string)
    requires forall i :: 0 <= i < |s| ==> !IsSeparatorControl(s[i])
    ensures IntStrip(s) == Strip(s)
  {
    IntTrimLeftIsTrimLeft(s);
    var l := TrimLeft(s);
    NoSeparatorControlInSuffix(s, l);
    IntTrimRightIsTrimRight(l);
  }

  lemma NoSeparatorControlInSuffix(s: string, l: string)
    requires forall i :: 0 <= i < |s| ==> !IsSeparatorControl(s[i])
    requires |l| <= |s| && l == s[|s| - |l|..]
    ensures forall i :: 0 <= i < |l| ==> !IsSeparatorControl(l[i])
  {
    forall i | 0 <= i < |l| ensures !IsSeparatorControl(l[i]) {
      assert l[i] == s[|s| - |l| + i];
    }
  }

  lemma {:induction false} IntTrimLeftIsTrimLeft(s: string)
    requires forall i :: 0 <= i < |s| ==> !IsSeparatorControl(s[i])
    ensures IntTrimLeft(s) == TrimLeft(s)
    decreases |s|
  {
    if s != [] && IsSpace(s[0]) {
      assert IsIntSpace(s[0]);
      assert forall i :: 0 <= i < |s[1..]| ==> s[1..][i] == s[i + 1];
      IntTrimLeftIsTrimLeft(s[1..]);
    }
  }

  lemma {:induction false} IntTrimRightIsTrimRight(s: string)
    requires forall i :: 0 <= i < |s| ==> !IsSeparatorControl(s[i])
    ensures IntTrimRight(s) == TrimRight(s)
    decreases |s|
  {
    if s != [] && IsSpace(s[|s| - 1]) {
      assert IsIntSpace(s[|s| - 1]);
      var t := s[..|s| - 1];
      assert forall i :: 0 <= i < |t| ==> t[i] == s[i];
      IntTrimRightIsTrimRight(t);
    }
  }

  /** `strip()` removes U+001C but `int()` does not ignore it:
      `int("\x1c5")` fails although `"\x1c5".strip()` is `"5"`. */
  lemma IntKeepsSeparatorControls()
    ensures Strip("\U{1C}5") == "5"
    ensures ParseInt("\U{1C}5") == None
  {
    assert TrimLeft("\U{1C}5") == "5" by {
      assert "\U{1C}5"[1..] == "5";
    }
  }

  /** A run of digits is a digit body worth its value. */
  lemma {:induction false} GroupsValueOfDigits(d: string)
    requires IsDigits(d)
    ensures GroupsValue(d) == Some(DigitsValue(d))
    decreases |d|
  {
    if |d| > 1 {
      var rest := d[..|d| - 1];
      assert IsDigit(d[|d| - 2]);
      assert IsDigits(rest) by {
        assert forall i :: 0 <= i < |rest| ==> rest[i] == d[i];
      }
      GroupsValueOfDigits(rest);
    }
  }

  /** A digit body starts with a digit. */
  lemma {:induction false} GroupsValueStartsWithDigit(b: string)
    requires GroupsValue(b).Some?
    ensures IsDigit(b[0])
    decreases |b|
  {
    if |b| > 1 {
      var rest := if b[|b| - 2] == '_' then b[..|b| - 2] else b[..|b| - 1];
      GroupsValueStartsWithDigit(rest);
      assert rest[0] == b[0];
    }
  }

  lemma {:induction false} NatToStringValue(n: nat)
    ensures DigitsValue(NatToString(n)) == n
  {
    if n >= 10 {
      NatToStringValue(n / 10);
      var s := NatToString(n);
      assert s[..|s| - 1] == NatToString(n / 10);
    }
  }

  /** Text without surrounding whitespace goes to `int()` unchanged. */
  lemma ParseIntOfTrimmed(s: string)
    requires s == [] || (!IsIntSpace(s[0]) && !IsIntSpace(s[|s| - 1]))
    ensures ParseInt(s) == ParseSigned(s)
  {
  }

  lemma ParseSignedOfDigits(d: string)
    requires IsDigits(d)
    ensures ParseSigned(d) == Some(DigitsValue(d))
  {
    GroupsValueOfDigits(d);
  }

  lemma ParseSignedOfNegativeDigits(d: string, s: string)
    requires IsDigits(d)
    requires |s| == |d| + 1 && s[0] == '-' && s[1..] == d
    ensures ParseSigned(s) == Some(0 - DigitsValue(d))
  {
    GroupsValueOfDigits(d);
  }

  /** `int()` of a run of digits is its value. */
  lemma ParseIntOfDigits(d: string)
    requires IsDigits(d)
    ensures ParseInt(d) == Some(DigitsValue(d))
  {
    ParseIntOfTrimmed(d);
    ParseSignedOfDigits(d);
  }

  /** `int()` of a minus sign and a run of digits is the negated value. */
  lemma ParseIntOfNegativeDigits(s: string)
    requires |s| > 1 && s[0] == '-' && IsDigits(s[1..])
    ensures ParseInt(s) == Some(0 - DigitsValue(s[1..]))
  {
    assert IsDigit(s[|s| - 1]) by {
      assert s[|s| - 1] == s[1..][|s| - 2];
    }
    ParseIntOfTrimmed(s);
    ParseSignedOfNegativeDigits(s[1..], s);
  }

  /** `int(str(n)) == n` for every integer. */
  lemma ParseIntOfIntToString(n: int)
    ensures ParseInt(IntToString(n)) == Some(n)
  {
    var s := IntToString(n);
    var m: nat := if n < 0 then -n else n;
    var d := NatToString(m);
    NatToStringValue(m);
    if n < 0 {
      assert s[1..] == d;
      ParseIntOfNegativeDigits(s);
    } else {
      ParseIntOfDigits(d);
    }
  }
}
