/** The pieces of Rust's `str` and integer formatting that the stream-query parser, the
    stream-id format and the SSE framing rely on: `split`, `trim`, ASCII upper-casing,
    `u32::from_str` and decimal `Display`. */
module Text {
  import opened Common

  // ---------------------------------------------------------------------------------------
  // str::split(char) and its inverse

  /** `s.split(sep)`: never empty; a string without `sep` is one piece, and an empty string
      is the single piece "". */
  function Split(s: string, sep: char): (parts: seq<string>)
    ensures |parts| >= 1
    ensures forall i :: 0 <= i < |parts| ==> sep !in parts[i]
    decreases |s|
  {
    if |s| == 0 then [""]
    else
      var rest := Split(s[1..], sep);
      if s[0] == sep then [""] + rest
      else [[s[0]] + rest[0]] + rest[1..]
  }

  /** The pieces glued back together with `sep` between neighbours. */
  function Join(parts: seq<string>, sep: char): string
    requires |parts| >= 1
    decreases |parts|
  {
    if |parts| == 1 then parts[0] else parts[0] + [sep] + Join(parts[1..], sep)
  }

  lemma JoinCons(p: string, rest: seq<string>, sep: char)
    requires |rest| >= 1
    ensures Join([p] + rest, sep) == p + [sep] + Join(rest, sep)
  {
    assert ([p] + rest)[1..] == rest;
  }

  lemma JoinThree(a: string, b: string, c: string, sep: char)
    ensures Join([a, b, c], sep) == a + [sep] + b + [sep] + c
  {
    JoinCons(a, [b, c], sep);
    JoinCons(b, [c], sep);
    assert [a, b, c] == [a] + [b, c] && [b, c] == [b] + [c];
  }

  lemma JoinFour(a: string, b: string, c: string, d: string, sep: char)
    ensures Join([a, b, c, d], sep) == a + [sep] + b + [sep] + c + [sep] + d
  {
    JoinCons(a, [b, c, d], sep);
    JoinThree(b, c, d, sep);
    assert [a, b, c, d] == [a] + [b, c, d];
  }

  /** Splitting loses nothing: the pieces and the separators give back the input. */
  lemma {:induction false} JoinOfSplit(s: string, sep: char)
    ensures Join(Split(s, sep), sep) == s
    decreases |s|
  {
    if |s| > 0 {
      var rest := Split(s[1..], sep);
      JoinOfSplit(s[1..], sep);
      if s[0] == sep {
        assert ([""] + rest)[1..] == rest;
        assert s == [s[0]] + s[1..];
      } else if |rest| == 1 {
        assert s == [s[0]] + s[1..];
      } else {
        var parts := [[s[0]] + rest[0]] + rest[1..];
        assert parts[1..] == rest[1..];
        assert s == [s[0]] + s[1..];
      }
    }
  }

  lemma {:induction false} SplitOfPrefix(p: string, t: string, sep: char)
    requires sep !in p
    ensures Split(p + t, sep) == [p + Split(t, sep)[0]] + Split(t, sep)[1..]
    decreases |p|
  {
    if |p| > 0 {
      SplitOfPrefix(p[1..], t, sep);
      assert (p + t)[1..] == p[1..] + t;
      assert (p + t)[0] == p[0];
      assert [p[0]] + (p[1..] + Split(t, sep)[0]) == p + Split(t, sep)[0];
    } else {
      var parts := Split(t, sep);
      assert p + t == t && p + parts[0] == parts[0];
      assert parts == [parts[0]] + parts[1..];
    }
  }

  /** Joining pieces that do not contain the separator and splitting again gives the pieces. */
  lemma {:induction false} SplitOfJoin(parts: seq<string>, sep: char)
    requires |parts| >= 1
    requires forall i :: 0 <= i < |parts| ==> sep !in parts[i]
    ensures Split(Join(parts, sep), sep) == parts
    decreases |parts|
  {
    if |parts| == 1 {
      SplitOfPrefix(parts[0], "", sep);
      assert parts[0] + "" == parts[0];
    } else {
      var tail := Join(parts[1..], sep);
      SplitOfJoin(parts[1..], sep);
      SplitOfPrefix(parts[0], [sep] + tail, sep);
      assert parts[0] + [sep] + tail == parts[0] + ([sep] + tail);
      assert ([sep] + tail)[1..] == tail;
      assert Split([sep] + tail, sep) == [""] + parts[1..];
      assert parts[0] + "" == parts[0];
      assert parts == [parts[0]] + parts[1..];
    }
  }

  // ---------------------------------------------------------------------------------------
  // str::trim

  /** Unicode White_Space, which is what `str::trim` strips. */
  predicate IsWhitespace(c: char) {
    var n := c as int;
    (9 <= n <= 13) || n == 0x20 || n == 0x85 || n == 0xA0 || n == 0x1680
    || (0x2000 <= n <= 0x200A) || n == 0x2028 || n == 0x2029 || n == 0x202F
    || n == 0x205F || n == 0x3000
  }

  /** Number of whitespace characters at the start of `s`. */
  function LeadingWhitespace(s: string): (k: nat)
    ensures k <= |s|
    ensures forall j :: 0 <= j < k ==> IsWhitespace(s[j])
    ensures k < |s| ==> !IsWhitespace(s[k])
    decreases |s|
  {
    if |s| > 0 && IsWhitespace(s[0]) then 1 + LeadingWhitespace(s[1..]) else 0
  }

  /** Number of whitespace characters at the end of `s`. */
  function TrailingWhitespace(s: string): (k: nat)
    ensures k <= |s|
    ensures forall j :: |s| - k <= j < |s| ==> IsWhitespace(s[j])
    ensures k < |s| ==> !IsWhitespace(s[|s| - 1 - k])
    decreases |s|
  {
    if |s| > 0 && IsWhitespace(s[|s| - 1]) then 1 + TrailingWhitespace(s[..|s| - 1]) else 0
  }

  /** `s.trim()`: the infix of `s` left after removing whitespace at both ends. */
  function Trim(s: string): (r: string)
    ensures |r| > 0 ==> !IsWhitespace(r[0]) && !IsWhitespace(r[|r| - 1])
    ensures LeadingWhitespace(s) + |r| <= |s|
    ensures r == s[LeadingWhitespace(s)..LeadingWhitespace(s) + |r|]
    ensures forall j :: 0 <= j < LeadingWhitespace(s) ==> IsWhitespace(s[j])
    ensures forall j :: LeadingWhitespace(s) + |r| <= j < |s| ==> IsWhitespace(s[j])
  {
    var a := LeadingWhitespace(s);
    var rest := s[a..];
    var b := TrailingWhitespace(rest);
    rest[..|rest| - b]
  }

  /** A string that neither starts nor ends with whitespace is its own trim. */
  lemma TrimOfTrimmed(s: string)
    requires |s| > 0 ==> !IsWhitespace(s[0]) && !IsWhitespace(s[|s| - 1])
    ensures Trim(s) == s
  {
    assert LeadingWhitespace(s) == 0;
    assert s[0..] == s;
    assert TrailingWhitespace(s) == 0;
  }

  // ---------------------------------------------------------------------------------------
  // str::to_uppercase, restricted to ASCII letters

  function UpperChar(c: char): char {
    if 'a' <= c <= 'z' then (c as int - 32) as char else c
  }

  function ToUpper(s: string): (r: string)
    ensures |r| == |s|
    ensures forall i :: 0 <= i < |s| ==> r[i] == UpperChar(s[i])
  {
    seq(|s|, i requires 0 <= i < |s| => UpperChar(s[i]))
  }

  /** Upper-cased, a string equals "MBO" exactly when it spells m-b-o in any mix of cases. */
  lemma UpperIsMbo(s: string)
    ensures ToUpper(s) == "MBO" <==>
      |s| == 3 && (s[0] == 'm' || s[0] == 'M') && (s[1] == 'b' || s[1] == 'B')
      && (s[2] == 'o' || s[2] == 'O')
  {
    if ToUpper(s) == "MBO" {
      assert ToUpper(s)[0] == 'M' && ToUpper(s)[1] == 'B' && ToUpper(s)[2] == 'O';
    }
    if |s| == 3 && (s[0] == 'm' || s[0] == 'M') && (s[1] == 'b' || s[1] == 'B')
      && (s[2] == 'o' || s[2] == 'O') {
      assert ToUpper(s) == [ToUpper(s)[0], ToUpper(s)[1], ToUpper(s)[2]];
    }
  }

  // ---------------------------------------------------------------------------------------
  // Decimal digits: u32 Display and u32::from_str

  predicate IsDigit(c: char) { '0' <= c <= '9' }

  predicate AllDigits(s: string) { forall i :: 0 <= i < |s| ==> IsDigit(s[i]) }

  function DigitValue(c: char): nat
    requires IsDigit(c)
  {
    c as int - '0' as int
  }

  /** The number a string of decimal digits denotes, most significant digit first. */
  function DigitsValue(s: string): nat
    requires AllDigits(s)
    decreases |s|
  {
    if |s| == 0 then 0 else 10 * DigitsValue(s[..|s| - 1]) + DigitValue(s[|s| - 1])
  }

  function DigitChar(d: nat): (c: char)
    requires d < 10
    ensures IsDigit(c) && DigitValue(c) == d
  {
    (d + '0' as int) as char
  }

  /** `format!("{}", n)`: the shortest decimal spelling, without sign or leading zeros. */
  function NatToString(n: nat): (r: string)
    ensures |r| >= 1
    decreases n
  {
    if n < 10 then [DigitChar(n)] else NatToString(n / 10) + [DigitChar(n % 10)]
  }

  /** The spelling is all digits, starts with '0' only for zero, and denotes `n`. */
  lemma {:induction false} NatToStringDigits(n: nat)
    ensures AllDigits(NatToString(n))
    ensures (NatToString(n)[0] == '0') == (n == 0)
    ensures DigitsValue(NatToString(n)) == n
    decreases n
  {
    if n >= 10 {
      NatToStringDigits(n / 10);
      var head := NatToString(n / 10);
      var r := NatToString(n);
      assert r == head + [DigitChar(n % 10)];
      assert r[..|r| - 1] == head;
      assert r[0] == head[0];
    }
  }

  /** `str::parse::<u32>()`: an optional leading '+', then at least one decimal digit, and a
      value below 2^32; anything else (a sign alone, a '-', spaces, overflow) fails. */
  function ParseU32(s: string): (r: Option<U32>)
    ensures r.Some? ==> |s| >= 1
  {
    var digits := if |s| > 0 && s[0] == '+' then s[1..] else s;
    if |digits| > 0 && AllDigits(digits) && DigitsValue(digits) < U32Limit
    then Some(DigitsValue(digits))
    else None
  }

  /** Formatting a u32 and parsing it back gives the same number. */
  lemma ParseOfFormatted(n: U32)
    ensures ParseU32(NatToString(n)) == Some(n)
  {
    var s := NatToString(n);
    NatToStringDigits(n);
    assert s[0] != '+';
  }

  /** A leading '+' is accepted in front of the digits. */
  lemma ParseOfSigned(n: U32)
    ensures ParseU32("+" + NatToString(n)) == Some(n)
  {
    NatToStringDigits(n);
    assert ("+" + NatToString(n))[1..] == NatToString(n);
  }

  /** A leading zero does not change the value a digit string denotes. */
  lemma {:induction false} LeadingZeroValue(s: string)
    requires AllDigits(s)
    ensures AllDigits("0" + s) && DigitsValue("0" + s) == DigitsValue(s)
    decreases |s|
  {
    var z := "0" + s;
    assert AllDigits(z) by {
      forall i | 0 <= i < |z| ensures IsDigit(z[i]) {
        if i > 0 { assert z[i] == s[i - 1]; }
      }
    }
    if |s| > 0 {
      LeadingZeroValue(s[..|s| - 1]);
      assert z[..|z| - 1] == "0" + s[..|s| - 1];
      assert z[|z| - 1] == s[|s| - 1];
    }
  }

  /** Leading zeros are accepted and ignored: "007" parses as 7. */
  lemma ParseIgnoresLeadingZero(s: string)
    requires |s| > 0 && AllDigits(s)
    ensures ParseU32("0" + s) == ParseU32(s)
  {
    LeadingZeroValue(s);
    assert s[0] != '+';
  }

  /** The spelling of any number of 2^32 or more fails to parse, signed or not. */
  lemma ParseRejectsOverflow(n: nat)
    requires n >= U32Limit
    ensures ParseU32(NatToString(n)) == None
    ensures ParseU32("+" + NatToString(n)) == None
  {
    NatToStringDigits(n);
    assert NatToString(n)[0] != '+';
    assert ("+" + NatToString(n))[1..] == NatToString(n);
  }

  /** With nothing after the optional '+' there is no number. */
  lemma ParseRejectsEmpty()
    ensures ParseU32("") == None && ParseU32("+") == None
  {
    assert "+"[1..] == "";
  }

  /** Any character that is not a digit, other than one leading '+', makes the parse fail:
      a '-' sign, a second sign, a trailing letter or an inner space. */
  lemma ParseRejectsNonDigit(s: string, i: nat)
    requires i < |s| && !IsDigit(s[i]) && (i > 0 || s[0] != '+')
    ensures ParseU32(s) == None
  {
    if s[0] == '+' {
      assert s[1..][i - 1] == s[i];
    }
  }

  lemma ParseRejectsSpaces(s: string)
    requires |s| > 0 && IsWhitespace(s[0])
    ensures ParseU32(s) == None
  {
    assert !IsDigit(s[0]);
  }
}
