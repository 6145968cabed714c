/** Decimal text of C integers: the "%d" conversion of sprintf (section 7.21.6.1 of ISO/IEC 9899:2011)
    and atoi (section 7.22.1.2). */
module Decimal {
  predicate IsDigit(c: char) { '0' <= c <= '9' }

  predicate IsSpace(c: char) { c == ' ' || '\t' <= c <= '\r' }

  predicate IsInt32(n: int) { -0x8000_0000 <= n < 0x8000_0000 }

  function Digit(n: nat): (c: char)
    requires n < 10
    ensures IsDigit(c)
  {
    ('0' as int + n) as char
  }

  function Digits(n: nat): (s: string)
    ensures s != ""
    ensures IsDigit(s[0])
  {
    if n < 10 then [Digit(n)] else Digits(n / 10) + [Digit(n % 10)]
  }

  /** The text that "%d" prints. */
  function FormatInt(n: int): string {
    if n < 0 then "-" + Digits(-n) else Digits(n)
  }

  lemma {:induction false} DigitsClean(n: nat, c: char)
    requires c in Digits(n)
    ensures IsDigit(c)
  {
    if n >= 10 && c in Digits(n / 10) {
      DigitsClean(n / 10, c);
    }
  }

  /** The printed text has no delimiter, white space or NUL in it. */
  lemma FormatIntClean(n: int, c: char)
    requires c in FormatInt(n)
    ensures c == '-' || IsDigit(c)
  {
    if n >= 0 {
      DigitsClean(n, c);
    } else if c != '-' {
      DigitsClean(-n, c);
    }
  }

  function Accumulate(s: string, acc: nat): nat {
    if s != "" && IsDigit(s[0]) then Accumulate(s[1..], 10 * acc + (s[0] as int - '0' as int)) else acc
  }

  /** atoi: white space, an optional sign, then digits up to the first other character. */
  function Atoi(s: string): int
    decreases |s|
  {
    if s == "" then 0
    else if IsSpace(s[0]) then Atoi(s[1..])
    else if s[0] == '-' then 0 - Accumulate(s[1..], 0)
    else if s[0] == '+' then Accumulate(s[1..], 0)
    else Accumulate(s, 0)
  }

  lemma {:induction false} AccumulateDigits(n: nat, t: string)
    ensures Accumulate(Digits(n) + t, 0) == Accumulate(t, n)
  {
    if n < 10 {
      assert ([Digit(n)] + t)[1..] == t;
    } else {
      var u := [Digit(n % 10)] + t;
      assert Digits(n) + t == Digits(n / 10) + u;
      AccumulateDigits(n / 10, u);
      assert u[1..] == t;
    }
  }

  lemma AtoiDigit(s: string)
    requires s != "" && IsDigit(s[0])
    ensures Atoi(s) == Accumulate(s, 0)
  {
  }

  /** The base is ten; atoi skips white space, takes a sign, and stops at the first other character. */
  lemma DecimalBase()
    ensures FormatInt(-108) == "-108" && Atoi(" \t-42;7") == -42 && Atoi("+19") == 19
  {
    assert Digits(108) == Digits(10) + [Digit(8)] && Digits(10) == Digits(1) + [Digit(0)];
    var s := " \t-42;7";
    assert s[1..] == "\t-42;7" && s[1..][1..] == "-42;7" && "-42;7"[1..] == "42;7" && "42;7"[1..] == "2;7";
    assert "2;7"[1..] == ";7" && "+19"[1..] == "19" && "19"[1..] == "9" && "9"[1..] == "";
    assert Accumulate(";7", 42) == 42 && Accumulate("2;7", 4) == 42;
    assert Accumulate("", 19) == 19 && Accumulate("9", 1) == 19;
  }

  /** atoi reads back every printed integer, whatever non-digit text follows it. */
  lemma AtoiFormat(n: int, t: string)
    requires t == "" || !IsDigit(t[0])
    ensures Atoi(FormatInt(n) + t) == n
  {
    AccumulateDigits(if n < 0 then -n else n, t);
    if n < 0 {
      assert FormatInt(n) + t == ['-'] + (Digits(-n) + t);
    } else {
      AtoiDigit(Digits(n) + t);
    }
  }
}
