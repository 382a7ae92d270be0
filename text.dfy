/**
 * The string operations the maze goal format relies on: decimal printing of
 * integers (as Python's `str` on an int), Python's `int()` on a piece of text
 * without whitespace, `str.replace(" ", "")` and `str.split(sep)`.
 */
module Text {
  import opened Options

  predicate IsDigit(ch: char) {
    '0' <= ch <= '9'
  }

  predicate AllDigits(s: string) {
    forall i :: 0 <= i < |s| ==> IsDigit(s[i])
  }

  function DigitChar(d: nat): (ch: char)
    requires d < 10
    ensures IsDigit(ch) && ch as int - '0' as int == d
  {
    ('0' as int + d) as char
  }

  function DigitValue(ch: char): (d: nat)
    requires IsDigit(ch)
    ensures d < 10 && DigitChar(d) == ch
  {
    ch as int - '0' as int
  }

  /** Decimal digits of `n`, most significant first, no leading zeros. */
  function NatToString(n: nat): (s: string)
    ensures |s| > 0 && AllDigits(s)
    ensures n < 10 <==> |s| == 1
    ensures s[0] == '0' <==> n == 0
    ensures |s| > 1 ==> s[0] != '0'
    decreases n
  {
    if n < 10 then [DigitChar(n)] else NatToString(n / 10) + [DigitChar(n % 10)]
  }

  /** The text Python prints for an integer: an optional minus sign, then its digits. */
  function IntToString(n: int): (s: string)
    ensures |s| > 0
    ensures n >= 0 ==> AllDigits(s) && DigitsValue(s) == n
    ensures n < 0 ==> |s| > 1 && s[0] == '-' && AllDigits(s[1..]) && DigitsValue(s[1..]) == -n
    ensures |s| > 1 && IsDigit(s[0]) ==> s[0] != '0'
    ensures n < 0 ==> s[1] != '0'
  {
    if n < 0 then
      NatToStringRoundTrip(-n);
      var digits := NatToString(-n);
      assert ("-" + digits)[1..] == digits;
      "-" + digits
    else
      NatToStringRoundTrip(n);
      NatToString(n)
  }

  /** The value of a string of decimal digits, read most significant first. */
  function DigitsValue(s: string): nat
    requires AllDigits(s)
    decreases |s|
  {
    if s == [] then 0 else DigitsValue(s[..|s| - 1]) * 10 + DigitValue(s[|s| - 1])
  }

  /**
   * Python's `int()` applied to a piece of text that holds no spaces: an
   * optional sign followed by at least one decimal digit; anything else is
   * the `ValueError` case, here `None`.
   */
  function ParseInt(s: string): (r: Option<int>)
    ensures r.Some? <==>
      (|s| > 0 && AllDigits(s)) || (|s| > 1 && (s[0] == '-' || s[0] == '+') && AllDigits(s[1..]))
    ensures AllDigits(s) && |s| > 0 ==> r == Some(DigitsValue(s))
    ensures |s| > 1 && s[0] == '-' && AllDigits(s[1..]) ==> r == Some(-(DigitsValue(s[1..]) as int))
    ensures |s| > 1 && s[0] == '+' && AllDigits(s[1..]) ==> r == Some(DigitsValue(s[1..]) as int)
  {
    if |s| > 0 && (s[0] == '-' || s[0] == '+') then
      var digits := s[1..];
      if |digits| > 0 && AllDigits(digits) then
        var magnitude: int := DigitsValue(digits);
        Some(if s[0] == '-' then -magnitude else magnitude)
      else None
    else if |s| > 0 && AllDigits(s) then Some(DigitsValue(s))
    else None
  }

  lemma {:induction false} NatToStringRoundTrip(n: nat)
    ensures DigitsValue(NatToString(n)) == n
    decreases n
  {
    if n >= 10 {
      var s := NatToString(n);
      var prefix := NatToString(n / 10);
      assert s == prefix + [DigitChar(n % 10)];
      assert s[..|s| - 1] == prefix;
      NatToStringRoundTrip(n / 10);
    }
  }

  /** Printing an integer and reading it back gives the same integer. */
  lemma IntToStringRoundTrip(n: int)
    ensures ParseInt(IntToString(n)) == Some(n)
  {
    var s := IntToString(n);
    if n < 0 {
      var digits := NatToString(-n);
      NatToStringRoundTrip(-n);
      assert s == "-" + digits;
      assert s[0] == '-' && s[1..] == digits;
      var magnitude: int := DigitsValue(digits);
      assert ParseInt(s) == Some(-magnitude);
    } else {
      var digits := NatToString(n);
      NatToStringRoundTrip(n);
      assert s == digits && s[0] != '-' && s[0] != '+';
    }
  }

  /** A printed integer holds only digits and '-', so any other character is absent from it. */
  lemma IntToStringOmits(n: int, ch: char)
    requires !IsDigit(ch) && ch != '-'
    ensures ch !in IntToString(n)
  {
  }

  /** What removing spaces keeps of one character. */
  function Kept(ch: char): string {
    if ch == ' ' then [] else [ch]
  }

  /** Python's `s.replace(" ", "")`. */
  function RemoveSpaces(s: string): (r: string)
    ensures ' ' !in r
    ensures |r| <= |s|
  {
    if s == [] then [] else Kept(s[0]) + RemoveSpaces(s[1..])
  }

  /** Removing spaces keeps every other character exactly as often as it occurs. */
  lemma {:induction false} RemoveSpacesMultiset(s: string)
    ensures multiset(RemoveSpaces(s)) == multiset(s)[' ' := 0]
  {
    if s != [] {
      assert s == [s[0]] + s[1..];
      RemoveSpacesMultiset(s[1..]);
    }
  }

  lemma {:induction false} RemoveSpacesNoop(s: string)
    requires ' ' !in s
    ensures RemoveSpaces(s) == s
  {
    if s != [] {
      RemoveSpacesNoop(s[1..]);
    }
  }

  lemma {:induction false} RemoveSpacesConcat(a: string, b: string)
    ensures RemoveSpaces(a + b) == RemoveSpaces(a) + RemoveSpaces(b)
  {
    if a == [] {
      assert a + b == b;
    } else {
      var ab := a + b;
      assert ab[0] == a[0] && ab[1..] == a[1..] + b;
      RemoveSpacesConcat(a[1..], b);
      assert RemoveSpaces(ab) == Kept(a[0]) + RemoveSpaces(a[1..] + b);
      assert RemoveSpaces(a) == Kept(a[0]) + RemoveSpaces(a[1..]);
    }
  }

  /** Removing the spaces from `a + ", " + b`, where `a` and `b` hold none, leaves `a + "," + b`. */
  lemma RemoveSpacesCommaSpace(a: string, b: string)
    requires ' ' !in a && ' ' !in b
    ensures RemoveSpaces(a + ", " + b) == a + [','] + b
  {
    assert a + ", " + b == a + (", " + b);
    assert ", " + b == [','] + ([' '] + b);
    RemoveSpacesConcat(a, ", " + b);
    RemoveSpacesConcat([','], [' '] + b);
    RemoveSpacesConcat([' '], b);
    RemoveSpacesNoop(a);
    RemoveSpacesNoop(b);
  }

  /** Removing spaces keeps every other character: it is in the result exactly when it is in the input. */
  lemma RemoveSpacesKeeps(s: string, ch: char)
    requires ch != ' '
    ensures ch in RemoveSpaces(s) <==> ch in s
  {
    RemoveSpacesMultiset(s);
    assert multiset(RemoveSpaces(s))[ch] == multiset(s)[ch];
  }

  lemma RemoveSpacesCons(ch: char, y: string)
    ensures RemoveSpaces([ch] + y) == Kept(ch) + RemoveSpaces(y)
  {
    var s := [ch] + y;
    assert s[0] == ch && s[1..] == y;
  }

  lemma FirstOfJoin(u: string, sep: char, v: string)
    ensures (u + [sep] + v)[0] == if u == [] then sep else u[0]
  {
  }

  /** A separator inside `u + sep + v` that does not come first: the first character belongs to `u`. */
  lemma ConsBeforeSeparator(ch: char, r: string, u: string, sep: char, v: string)
    requires ch != sep && [ch] + r == u + [sep] + v
    ensures u != [] && u[0] == ch && r == u[1..] + [sep] + v
  {
    var w := u + [sep] + v;
    FirstOfJoin(u, sep, v);
    assert w == [u[0]] + (u[1..] + [sep] + v);
    assert w[0] == ch && w[1..] == r;
  }

  /** What is left of `u + "," + v`, the space-free form of `[ch] + y`, once `ch` is accounted for. */
  lemma RemoveSpacesHead(ch: char, y: string, u: string, v: string) returns (u': string)
    requires RemoveSpaces([ch] + y) == u + [','] + v && ',' !in u
    ensures ch == ',' ==> u == [] && RemoveSpaces(y) == v
    ensures ch != ',' ==> Kept(ch) + u' == u && RemoveSpaces(y) == u' + [','] + v
  {
    RemoveSpacesCons(ch, y);
    var r := RemoveSpaces(y);
    u' := u;
    if ch == ',' {
      FirstOfJoin(u, ',', v);
      assert [','] + r == [','] + v;
      assert r == ([','] + r)[1..];
    } else if ch != ' ' {
      ConsBeforeSeparator(ch, r, u, ',', v);
      u' := u[1..];
    }
  }

  /**
   * A comma in the text with its spaces removed comes from a comma of the
   * original text, whose two sides lose their spaces to the two sides of the
   * space-free one.
   */
  lemma {:induction false} RemoveSpacesAt(x: string, u: string, v: string) returns (p: string, q: string)
    requires RemoveSpaces(x) == u + [','] + v && ',' !in u
    ensures x == p + [','] + q
    ensures RemoveSpaces(p) == u && RemoveSpaces(q) == v
    decreases |x|
  {
    assert x != [];
    var ch, y := x[0], x[1..];
    assert x == [ch] + y;
    var u' := RemoveSpacesHead(ch, y, u, v);
    if ch == ',' {
      p, q := [], y;
    } else {
      var p';
      p', q := RemoveSpacesAt(y, u', v);
      p := [ch] + p';
      RemoveSpacesCons(ch, p');
      assert [ch] + (p' + [','] + q) == p + [','] + q;
    }
  }

  /** Removing spaces around one comma. */
  lemma RemoveSpacesAroundComma(a: string, b: string)
    ensures RemoveSpaces(a + [','] + b) == RemoveSpaces(a) + [','] + RemoveSpaces(b)
  {
    RemoveSpacesConcat(a + [','], b);
    RemoveSpacesConcat(a, [',']);
    RemoveSpacesCons(',', []);
    assert [','] + [] == [','];
  }

  /** Python's `s.split(sep)`: the pieces between separators, empty ones included. */
  function Split(s: string, sep: char): (parts: seq<string>)
    ensures |parts| > 0
  {
    if s == [] then [""]
    else
      var rest := Split(s[1..], sep);
      if s[0] == sep then [""] + rest else [[s[0]] + rest[0]] + rest[1..]
  }

  lemma {:induction false} SplitNoSeparator(s: string, sep: char)
    requires sep !in s
    ensures Split(s, sep) == [s]
  {
    if s != [] {
      SplitNoSeparator(s[1..], sep);
      assert [s[0]] + s[1..] == s;
    }
  }

  lemma {:induction false} SplitAtFirst(a: string, sep: char, b: string)
    requires sep !in a
    ensures Split(a + [sep] + b, sep) == [a] + Split(b, sep)
  {
    if a == [] {
      assert a + [sep] + b == [sep] + b;
      assert ([sep] + b)[1..] == b;
    } else {
      assert (a + [sep] + b)[1..] == a[1..] + [sep] + b;
      SplitAtFirst(a[1..], sep, b);
      assert [a[0]] + a[1..] == a;
    }
  }

  /** A text that splits into one piece holds no separator and is that piece. */
  lemma {:induction false} SplitSingle(s: string, sep: char)
    requires |Split(s, sep)| == 1
    ensures sep !in s && Split(s, sep) == [s]
  {
    if s != [] {
      var rest := Split(s[1..], sep);
      assert s[0] != sep;
      SplitSingle(s[1..], sep);
      assert [s[0]] + s[1..] == s;
    }
  }

  /** A text that splits into two pieces is those pieces joined by the one separator it holds. */
  lemma {:induction false} SplitPair(s: string, sep: char)
    requires |Split(s, sep)| == 2
    ensures s == Split(s, sep)[0] + [sep] + Split(s, sep)[1]
    ensures sep !in Split(s, sep)[0] && sep !in Split(s, sep)[1]
  {
    assert s != [];
    var rest := Split(s[1..], sep);
    if s[0] == sep {
      SplitSingle(s[1..], sep);
      assert s == [sep] + s[1..];
    } else {
      SplitPair(s[1..], sep);
      assert s == [s[0]] + s[1..];
    }
  }

  /** Splitting `a + sep + b` with no separator in `a` or `b` gives back `a` and `b`. */
  lemma SplitTwo(a: string, sep: char, b: string)
    requires sep !in a && sep !in b
    ensures Split(a + [sep] + b, sep) == [a, b]
  {
    SplitAtFirst(a, sep, b);
    SplitNoSeparator(b, sep);
  }
}
