/**
 * The three Java library operations the size query relies on, stated over
 * `seq<char>`: `String.trim()`, `String.split("\\s+")` and
 * `Integer.parseInt(String)`, together with decimal rendering
 * (`Integer.toString`) as the partner of the parser.
 */
module JavaText {
  import opened Errors

  /** Java's `int`. */
  type Int32 = x: int | -0x8000_0000 <= x <= 0x7FFF_FFFF

  // ---------------------------------------------------------------------
  // Character classes
  // ---------------------------------------------------------------------

  /** A character `String.trim` strips: any code point at or below U+0020. */
  predicate IsBlank(c: char) { c <= ' ' }

  /** A character of the regular-expression class `\s`: space, tab, newline, vertical tab, form feed, carriage return. */
  predicate IsSpace(c: char)
    ensures IsSpace(c) ==> IsBlank(c)
  {
    c == ' ' || c == '\t' || c == '\n' || c == '\U{0B}' || c == '\U{0C}' || c == '\r'
  }

  predicate AllBlank(s: string) { forall i | 0 <= i < |s| :: IsBlank(s[i]) }

  predicate AllSpace(s: string) { forall i | 0 <= i < |s| :: IsSpace(s[i]) }

  predicate NoSpace(s: string) { forall i | 0 <= i < |s| :: !IsSpace(s[i]) }

  /** No blank character at either end: what `String.trim` returns. */
  predicate IsTrimmed(s: string) { s == [] || (!IsBlank(s[0]) && !IsBlank(s[|s| - 1])) }

  /** A word as a command prints it: non-empty, and no character of it is blank. */
  predicate IsToken(t: string) { t != [] && forall i | 0 <= i < |t| :: !IsBlank(t[i]) }

  // ---------------------------------------------------------------------
  // String.trim()
  // ---------------------------------------------------------------------

  /** Drops the leading blank characters. */
  function TrimStart(s: string): (r: string)
    ensures r == [] || !IsBlank(r[0])
  {
    if s != [] && IsBlank(s[0]) then TrimStart(s[1..]) else s
  }

  /** Drops the trailing blank characters. */
  function TrimEnd(s: string): (r: string)
    ensures r == [] || !IsBlank(r[|r| - 1])
  {
    if s != [] && IsBlank(s[|s| - 1]) then TrimEnd(s[..|s| - 1]) else s
  }

  lemma {:induction false} TrimStartIsSuffix(s: string)
    ensures |TrimStart(s)| <= |s| && TrimStart(s) == s[|s| - |TrimStart(s)|..]
    ensures AllBlank(s[..|s| - |TrimStart(s)|])
  {
    if s != [] && IsBlank(s[0]) {
      TrimStartIsSuffix(s[1..]);
    }
  }

  lemma {:induction false} TrimEndIsPrefix(s: string)
    ensures |TrimEnd(s)| <= |s| && TrimEnd(s) == s[..|TrimEnd(s)|]
    ensures AllBlank(s[|TrimEnd(s)|..])
  {
    if s != [] && IsBlank(s[|s| - 1]) {
      TrimEndIsPrefix(s[..|s| - 1]);
    }
  }

  /**
   * `String.trim()`: the part of `s` left after removing blank characters
   * from both ends; no blank character is left at either end.
   */
  function Trim(s: string): (r: string)
    ensures IsTrimmed(r)
  {
    var t := TrimStart(s);
    TrimEndIsPrefix(t);
    TrimEnd(t)
  }

  /** What `Trim` removes is blank padding at the two ends: the result sits inside `s`. */
  lemma TrimIsInfix(s: string)
    ensures exists i :: 0 <= i <= |s| - |Trim(s)| && s[i..i + |Trim(s)|] == Trim(s) && AllBlank(s[..i]) && AllBlank(s[i + |Trim(s)|..])
  {
    var t := TrimStart(s);
    var r := TrimEnd(t);
    TrimStartIsSuffix(s);
    TrimEndIsPrefix(t);
    var i := |s| - |t|;
    assert s[i..i + |r|] == r && s[i + |r|..] == t[|r|..];
  }

  lemma {:induction false} TrimStartSkipsBlanks(pre: string, x: string)
    requires AllBlank(pre)
    ensures TrimStart(pre + x) == TrimStart(x)
  {
    if pre == [] {
      assert pre + x == x;
    } else {
      assert (pre + x)[1..] == pre[1..] + x;
      TrimStartSkipsBlanks(pre[1..], x);
    }
  }

  lemma {:induction false} TrimEndSkipsBlanks(x: string, post: string)
    requires AllBlank(post)
    ensures TrimEnd(x + post) == TrimEnd(x)
  {
    if post == [] {
      assert x + post == x;
    } else {
      var shorter := post[..|post| - 1];
      assert (x + post)[..|x + post| - 1] == x + shorter;
      TrimEndSkipsBlanks(x, shorter);
    }
  }

  /**
   * `Trim` is determined by its contract: whatever blank padding surrounds
   * a string with no blank character at either end, trimming gives that
   * string back.
   */
  lemma TrimUnique(pre: string, core: string, post: string)
    requires AllBlank(pre) && AllBlank(post) && IsTrimmed(core)
    ensures Trim(pre + core + post) == core
  {
    assert pre + core + post == pre + (core + post);
    TrimStartSkipsBlanks(pre, core + post);
    if core == [] {
      assert core + post == post + [];
      TrimStartSkipsBlanks(post, []);
    } else {
      assert TrimStart(core + post) == core + post;
      TrimEndSkipsBlanks(core, post);
    }
  }

  // ---------------------------------------------------------------------
  // String.split("\\s+")
  // ---------------------------------------------------------------------

  /** Length of the run of non-space characters at the front of `s`. */
  function TokenLength(s: string): (n: nat)
    ensures n <= |s| && NoSpace(s[..n])
    ensures n < |s| ==> IsSpace(s[n])
    ensures s != [] && !IsSpace(s[0]) ==> n > 0
  {
    if s == [] || IsSpace(s[0]) then 0 else 1 + TokenLength(s[1..])
  }

  /** The maximal runs of non-space characters of `s`, in order. */
  function Fields(s: string): (r: seq<string>)
    ensures forall k | 0 <= k < |r| :: r[k] != [] && NoSpace(r[k])
    decreases |s|
  {
    if s == [] then []
    else if IsSpace(s[0]) then Fields(s[1..])
    else
      var n := TokenLength(s);
      [s[..n]] + Fields(s[n..])
  }

  /**
   * `String.split("\\s+")` (limit 0): with no separator the whole string
   * is the only piece; otherwise the pieces between runs of space, with a
   * leading empty piece when `s` starts with space, and the trailing empty
   * pieces removed.
   */
  function Split(s: string): (r: seq<string>)
    ensures r != [] ==> NoSpace(r[0])
    ensures forall k | 0 < k < |r| :: r[k] != [] && NoSpace(r[k])
  {
    if NoSpace(s) then [s]
    else if Fields(s) == [] then []
    else (if IsSpace(s[0]) then [""] else []) + Fields(s)
  }

  /** The words of `ts` separated by `sep`. */
  function Join(ts: seq<string>, sep: string): string
  {
    if |ts| == 0 then ""
    else if |ts| == 1 then ts[0]
    else ts[0] + sep + Join(ts[1..], sep)
  }

  lemma {:induction false} FieldsSkipSpace(w: string, s: string)
    requires AllSpace(w)
    ensures Fields(w + s) == Fields(s)
  {
    if w == [] {
      assert w + s == s;
    } else {
      assert (w + s)[1..] == w[1..] + s;
      FieldsSkipSpace(w[1..], s);
    }
  }

  lemma {:induction false} TokenLengthOfWord(t: string, s: string)
    requires NoSpace(t) && (s == [] || IsSpace(s[0]))
    ensures TokenLength(t + s) == |t|
  {
    if t == [] {
      assert t + s == s;
    } else {
      assert (t + s)[1..] == t[1..] + s;
      TokenLengthOfWord(t[1..], s);
    }
  }

  /** A word followed by space or by nothing is the first field. */
  lemma FieldsOfWord(t: string, s: string)
    requires t != [] && NoSpace(t) && (s == [] || IsSpace(s[0]))
    ensures Fields(t + s) == [t] + Fields(s)
  {
    TokenLengthOfWord(t, s);
    assert (t + s)[..|t|] == t && (t + s)[|t|..] == s;
  }

  /** Round trip: splitting words joined by a space separator gives the words back. */
  lemma {:induction false} FieldsOfJoin(ts: seq<string>, sep: string)
    requires forall k | 0 <= k < |ts| :: ts[k] != [] && NoSpace(ts[k])
    requires sep != [] && AllSpace(sep)
    ensures Fields(Join(ts, sep)) == ts
  {
    if |ts| == 1 {
      FieldsOfWord(ts[0], "");
      assert ts[0] + "" == ts[0];
    } else if |ts| > 1 {
      var rest := Join(ts[1..], sep);
      assert Join(ts, sep) == ts[0] + (sep + rest);
      FieldsOfWord(ts[0], sep + rest);
      FieldsSkipSpace(sep, rest);
      FieldsOfJoin(ts[1..], sep);
      assert [ts[0]] + ts[1..] == ts;
    }
  }

  /** Words separated by a space form a trimmed string, empty only when there are no words. */
  lemma {:induction false} JoinIsTrimmed(ts: seq<string>)
    requires forall k | 0 <= k < |ts| :: IsToken(ts[k])
    ensures IsTrimmed(Join(ts, " "))
    ensures Join(ts, " ") == [] <==> ts == []
  {
    if |ts| > 1 {
      JoinIsTrimmed(ts[1..]);
      var rest := Join(ts[1..], " ");
      assert Join(ts, " ") == ts[0] + " " + rest;
    }
  }

  /**
   * On a trimmed string, `split("\\s+")` gives its fields, except that the
   * empty string splits into one empty piece.
   */
  lemma SplitOfTrimmed(s: string)
    requires IsTrimmed(s)
    ensures Split(s) == if s == [] then [""] else Fields(s)
  {
    if s != [] {
      assert !IsSpace(s[0]);
      if NoSpace(s) {
        FieldsOfWord(s, "");
        assert s + "" == s;
      }
    }
  }

  // ---------------------------------------------------------------------
  // Integer.parseInt and Integer.toString
  // ---------------------------------------------------------------------

  predicate IsDigit(c: char) { '0' <= c <= '9' }

  predicate AllDigits(d: string) { forall i | 0 <= i < |d| :: IsDigit(d[i]) }

  /** One or more ASCII decimal digits. */
  predicate IsDecimal(d: string) { d != [] && AllDigits(d) }

  function DigitValue(c: char): nat
    requires IsDigit(c)
  {
    c as int - '0' as int
  }

  function DigitChar(k: nat): (c: char)
    requires k < 10
    ensures IsDigit(c) && DigitValue(c) == k
  {
    ('0' as int + k) as char
  }

  /** The value of a string of decimal digits, most significant first. */
  function DecimalValue(d: string): nat
    requires AllDigits(d)
  {
    if d == [] then 0 else DecimalValue(d[..|d| - 1]) * 10 + DigitValue(d[|d| - 1])
  }

  /** The digits of `s` after an optional leading sign. */
  function Magnitude(s: string): string
  {
    if s != [] && (s[0] == '-' || s[0] == '+') then s[1..] else s
  }

  /** The signed value written by an optional sign and decimal digits. */
  function SignedValue(s: string): int
    requires IsDecimal(Magnitude(s))
  {
    if s[0] == '-' then 0 - DecimalValue(Magnitude(s)) else DecimalValue(Magnitude(s))
  }

  predicate InInt32(v: int) { -0x8000_0000 <= v <= 0x7FFF_FFFF }

  /**
   * `Integer.parseInt(s)`: an optional `-` or `+` followed by one or more
   * decimal digits whose signed value fits in an `int`; anything else
   * raises `NumberFormatException`.
   */
  function ParseInt(s: string): (r: Result<Int32>)
    ensures r.Ok? <==> IsDecimal(Magnitude(s)) && InInt32(SignedValue(s))
    ensures r.Ok? ==> r.value as int == SignedValue(s)
    ensures r.Err? ==> r.error == NumberFormat(s)
  {
    if IsDecimal(Magnitude(s)) && InInt32(SignedValue(s)) then Ok(SignedValue(s)) else Err(NumberFormat(s))
  }

  /** Decimal digits of `n`, most significant first, with no leading zero. */
  function NatToString(n: nat): (s: string)
    ensures IsDecimal(s)
    ensures s[0] == '0' ==> n == 0
  {
    if n < 10 then [DigitChar(n)] else NatToString(n / 10) + [DigitChar(n % 10)]
  }

  /** `Integer.toString(n)`: a minus sign for negative values, then the digits. */
  function IntToString(n: int): (s: string)
    ensures IsToken(s)
  {
    if n < 0 then "-" + NatToString(-n) else NatToString(n)
  }

  lemma {:induction false} DecimalValueOfNatToString(n: nat)
    ensures DecimalValue(NatToString(n)) == n
  {
    if n >= 10 {
      var s := NatToString(n);
      assert s[..|s| - 1] == NatToString(n / 10);
      DecimalValueOfNatToString(n / 10);
    }
  }

  /** Round trip: parsing the decimal rendering of any `int` gives it back. */
  lemma ParseIntOfIntToString(n: Int32)
    ensures ParseInt(IntToString(n)) == Ok(n)
  {
    if n < 0 {
      var m: nat := 0 - n as int;
      assert Magnitude(IntToString(n)) == NatToString(m);
      DecimalValueOfNatToString(m);
    } else {
      DecimalValueOfNatToString(n);
    }
  }
}
