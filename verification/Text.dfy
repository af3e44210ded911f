/** Strings as sequences of characters: trimming and decimal numerals. */
module Text {

  /** ASCII white space. */
  predicate IsSpace(c: char) {
    9 <= c as int <= 13 || 28 <= c as int <= 32
  }

  function StripLeft(s: string): (r: string)
    ensures |r| <= |s|
    ensures r != "" ==> !IsSpace(r[0])
    ensures r == s[|s| - |r|..]
  {
    if s == "" then "" else if IsSpace(s[0]) then StripLeft(s[1..]) else s
  }

  function StripRight(s: string): (r: string)
    ensures |r| <= |s| && r == s[..|r|]
    ensures r != "" ==> !IsSpace(r[|r| - 1])
  {
    if s == "" then "" else if IsSpace(s[|s| - 1]) then StripRight(s[..|s| - 1]) else s
  }

  /** `value.strip()`. */
  function Strip(s: string): (r: string)
    ensures Trimmed(r) && |r| <= |s|
  {
    StripRight(StripLeft(s))
  }

  predicate Trimmed(s: string) {
    s != "" ==> !IsSpace(s[0]) && !IsSpace(s[|s| - 1])
  }

  /** Trimming a trimmed string changes nothing. */
  lemma StripTrimmed(s: string)
    requires Trimmed(s)
    ensures Strip(s) == s
  {
  }

  const Blanks: string := " \t\n\r\U{0B}\U{0C}\U{1C}\U{1D}\U{1E}\U{1F}"

  ghost predicate AllBlank(s: string) {
    forall i :: 0 <= i < |s| ==> s[i] in Blanks
  }

  /** `s` is the trimmed text `t` between blanks. */
  ghost predicate Padded(s: string, t: string) {
    Trimmed(t) && exists a, b :: AllBlank(a) && AllBlank(b) && s == a + t + b
  }

  lemma SpacesAreBlanks(c: char)
    ensures IsSpace(c) <==> c in Blanks
  {
    assert Blanks == [' ', 9 as char, 10 as char, 13 as char, 11 as char, 12 as char, 28 as char, 29 as char,
      30 as char, 31 as char];
  }

  lemma {:induction false} StripLeftBlanks(a: string, t: string)
    requires AllBlank(a)
    ensures StripLeft(a + t) == StripLeft(t)
  {
    if a == "" {
      assert a + t == t;
    } else {
      SpacesAreBlanks(a[0]);
      assert (a + t)[1..] == a[1..] + t;
      StripLeftBlanks(a[1..], t);
    }
  }

  lemma {:induction false} StripRightBlanks(t: string, b: string)
    requires AllBlank(b)
    ensures StripRight(t + b) == StripRight(t)
  {
    if b == "" {
      assert t + b == t;
    } else {
      SpacesAreBlanks(b[|b| - 1]);
      assert (t + b)[..|t + b| - 1] == t + b[..|b| - 1];
      StripRightBlanks(t, b[..|b| - 1]);
    }
  }

  lemma {:induction false} LeftBlank(s: string, i: nat)
    requires i < |s| - |StripLeft(s)|
    ensures s[i] in Blanks
  {
    if i == 0 { SpacesAreBlanks(s[0]); } else { LeftBlank(s[1..], i - 1); }
  }

  lemma {:induction false} RightBlank(s: string, i: nat)
    requires |StripRight(s)| <= i < |s|
    ensures s[i] in Blanks
  {
    if i == |s| - 1 { SpacesAreBlanks(s[i]); } else { RightBlank(s[..|s| - 1], i); }
  }

  lemma LeftPad(s: string) returns (a: string)
    ensures AllBlank(a) && s == a + StripLeft(s)
  {
    a := s[..|s| - |StripLeft(s)|];
    forall i | 0 <= i < |a| ensures a[i] in Blanks { LeftBlank(s, i); }
  }

  lemma RightPad(s: string) returns (b: string)
    ensures AllBlank(b) && s == StripRight(s) + b
  {
    b := s[|StripRight(s)|..];
    forall i | 0 <= i < |b| ensures b[i] in Blanks { RightBlank(s, |StripRight(s)| + i); }
  }

  /** Trimming removes the blanks at both ends and nothing else. */
  lemma StripExactly(s: string, t: string)
    ensures Strip(s) == t <==> Padded(s, t)
  {
    StripPads(s);
    if Padded(s, t) { PaddedGives(s, t); }
  }

  lemma PaddedGives(s: string, t: string)
    requires Padded(s, t)
    ensures Strip(s) == t
  {
    var a, b :| AllBlank(a) && AllBlank(b) && s == a + t + b;
    var rest := t + b;
    assert s == a + rest;
    StripLeftBlanks(a, rest);
    PaddedRight(t, b);
  }

  lemma StripPads(s: string)
    ensures Padded(s, Strip(s))
  {
    var a := LeftPad(s);
    var b := RightPad(StripLeft(s));
    PadWith(s, a, Strip(s), b);
  }

  lemma PadWith(s: string, a: string, t: string, b: string)
    requires AllBlank(a) && Trimmed(t) && AllBlank(b) && s == a + (t + b)
    ensures Padded(s, t)
  {
    assert s == a + t + b;
  }

  lemma PaddedRight(t: string, b: string)
    requires Trimmed(t) && AllBlank(b)
    ensures StripRight(StripLeft(t + b)) == t
  {
    var s := t + b;
    if t == "" {
      StripLeftBlanks(b, "");
      assert s == b + "";
    } else {
      assert s[0] == t[0];
      assert StripLeft(s) == s;
      StripRightBlanks(t, b);
      assert StripRight(t) == t;
    }
  }

  function Digit(d: nat): (c: char)
    requires d < 10
    ensures !IsSpace(c)
  {
    ('0' as int + d) as char
  }

  /** The decimal numeral of a natural number. */
  function Numeral(n: nat): (r: string)
    ensures r != ""
    ensures forall i :: 0 <= i < |r| ==> '0' <= r[i] <= '9'
  {
    if n < 10 then [Digit(n)] else Numeral(n / 10) + [Digit(n % 10)]
  }

  /** `str(value)` of an integer. */
  function IntText(n: int): (r: string)
    ensures r != "" && Trimmed(r)
  {
    if n < 0 then ['-'] + Numeral(-n) else Numeral(n)
  }

  /** Different numbers have different numerals. */
  lemma {:induction false} NumeralInjective(m: nat, n: nat)
    requires Numeral(m) == Numeral(n)
    ensures m == n
  {
    var a, b := Numeral(m), Numeral(n);
    assert a[|a| - 1] == Digit(m % 10) && b[|b| - 1] == Digit(n % 10);
    if m >= 10 && n >= 10 {
      assert a[..|a| - 1] == Numeral(m / 10) && b[..|b| - 1] == Numeral(n / 10);
      NumeralInjective(m / 10, n / 10);
    }
  }

  /** Different numbers have different texts, and exactly the negative ones begin with a minus. */
  lemma IntTextInjective(m: int, n: int)
    ensures IntText(m)[0] == '-' <==> m < 0
    ensures IntText(m) == IntText(n) ==> m == n
  {
    SignedText(m);
    SignedText(n);
    if IntText(m) == IntText(n) {
      if m < 0 { NumeralInjective(-m, -n); } else { NumeralInjective(m, n); }
    }
  }

  lemma SignedText(n: int)
    ensures n < 0 ==> IntText(n)[0] == '-' && IntText(n)[1..] == Numeral(-n)
    ensures n >= 0 ==> IntText(n)[0] != '-' && IntText(n) == Numeral(n)
  {
  }

  /** A larger number has no shorter numeral. */
  lemma {:induction false} NumeralMonotone(m: nat, n: nat)
    requires m <= n
    ensures |Numeral(m)| <= |Numeral(n)|
  {
    if n >= 10 && m >= 10 { NumeralMonotone(m / 10, n / 10); }
  }

  /** Numerals below one hundred have at most two digits; one hundred has three. */
  lemma {:induction false} NumeralLength(n: nat)
    ensures n < 100 ==> |Numeral(n)| <= 2
    ensures n == 100 ==> |Numeral(n)| == 3
  {
    if n >= 10 {
      assert n < 100 ==> n / 10 < 10;
      assert n == 100 ==> n / 10 == 10 && Numeral(10) == Numeral(1) + [Digit(0)];
    }
  }

  /** The comparison keys of a list of texts. */
  function Folded(fold: string -> string, texts: seq<string>): (r: seq<string>)
    ensures |r| == |texts| && forall i :: 0 <= i < |texts| ==> r[i] == fold(texts[i])
  {
    seq(|texts|, i requires 0 <= i < |texts| => fold(texts[i]))
  }
}
