/** The few Python string operations the toolkit relies on, stated over
    `seq<char>`: `str.strip`, ASCII `lower`/`upper`, `str.split(sep)`,
    substring and prefix tests, and `int(str)` with its decimal inverse.
 */
module Text {
  import opened Outcome

  /** Python's `str.isspace` for a single code point. */
  predicate IsSpace(c: char) {
    c == ' ' || c == '\t' || c == '\n' || c == '\r' || c == '\U{000B}' || c == '\U{000C}'
    || ('\U{001C}' <= c <= '\U{001F}') || c == '\U{0085}' || c == '\U{00A0}' || c == '\U{1680}'
    || ('\U{2000}' <= c <= '\U{200A}') || c == '\U{2028}' || c == '\U{2029}' || c == '\U{202F}'
    || c == '\U{205F}' || c == '\U{3000}'
  }

  /** `not s.strip()`: the string holds nothing but whitespace. */
  predicate IsBlank(s: string) {
    forall i | 0 <= i < |s| :: IsSpace(s[i])
  }

  /** `str.lstrip()`. */
  function LStrip(s: string): (r: string)
    ensures |r| <= |s| && r == s[|s| - |r|..]
    ensures r == [] || !IsSpace(r[0])
    ensures IsBlank(s[..|s| - |r|])
  {
    if |s| > 0 && IsSpace(s[0]) then
      var r := LStrip(s[1..]);
      assert s[..|s| - |r|] == [s[0]] + s[1..][..|s| - 1 - |r|];
      r
    else s
  }

  /** `str.rstrip()`. */
  function RStrip(s: string): (r: string)
    ensures |r| <= |s| && r == s[..|r|]
    ensures r == [] || !IsSpace(r[|r| - 1])
    ensures IsBlank(s[|r|..])
  {
    if |s| > 0 && IsSpace(s[|s| - 1]) then
      var r := RStrip(s[..|s| - 1]);
      assert s[|r|..] == s[..|s| - 1][|r|..] + [s[|s| - 1]];
      r
    else s
  }

  /** Neither end of the string is whitespace. */
  predicate Unpadded(s: string) {
    s == [] || (!IsSpace(s[0]) && !IsSpace(s[|s| - 1]))
  }

  /** `str.strip()`: the longest infix of `s` that starts and ends with a non-space. */
  function Strip(s: string): (r: string)
    ensures |r| <= |s|
    ensures r == [] || (!IsSpace(r[0]) && !IsSpace(r[|r| - 1]))
    ensures r == [] <==> IsBlank(s)
    ensures exists a :: 0 <= a <= |s| - |r| && r == s[a..][..|r|]
  {
    var l := LStrip(s);
    var r := RStrip(l);
    var a := |s| - |l|;
    assert r == s[a..][..|r|];
    assert r == [] ==> IsBlank(s) by {
      if r == [] {
        assert l == [];
        assert s[..|s| - |l|] == s;
      }
    }
    r
  }

  /** A string whose ends are not whitespace is its own `strip()`. */
  lemma StripKeepsTrimmed(s: string)
    requires Unpadded(s)
    ensures Strip(s) == s
  {
  }

  /** `s.strip().strip() == s.strip()`. */
  lemma StripIdempotent(s: string)
    ensures Strip(Strip(s)) == Strip(s)
  {
    StripKeepsTrimmed(Strip(s));
  }

  /** ASCII `str.lower()` of one character. */
  function LowerChar(c: char): char {
    if 'A' <= c <= 'Z' then (c as int + 32) as char else c
  }

  /** ASCII `str.upper()` of one character. */
  function UpperChar(c: char): char {
    if 'a' <= c <= 'z' then (c as int - 32) as char else c
  }

  /** `str.lower()`, restricted to ASCII letters. */
  function Lower(s: string): (r: string)
    ensures |r| == |s|
    ensures forall i | 0 <= i < |s| :: r[i] == LowerChar(s[i])
  {
    if s == [] then [] else [LowerChar(s[0])] + Lower(s[1..])
  }

  /** `str.upper()`, restricted to ASCII letters. */
  function Upper(s: string): (r: string)
    ensures |r| == |s|
    ensures forall i | 0 <= i < |s| :: r[i] == UpperChar(s[i])
  {
    if s == [] then [] else [UpperChar(s[0])] + Upper(s[1..])
  }

  /** `sub in s`. */
  predicate Contains(s: string, sub: string) {
    exists i | 0 <= i <= |s| - |sub| :: s[i..][..|sub|] == sub
  }

  /** `s.startswith(p)`. */
  predicate StartsWith(s: string, p: string) {
    |p| <= |s| && s[..|p|] == p
  }

  /** Position of the first `c` in `s`. */
  function IndexOf(s: string, c: char): (i: nat)
    requires c in s
    ensures i < |s| && s[i] == c && c !in s[..i]
  {
    if s[0] == c then 0 else 1 + IndexOf(s[1..], c)
  }

  /** `sep.join(parts)`, for a one-character separator. */
  function Join(parts: seq<string>, sep: char): string {
    if parts == [] then []
    else if |parts| == 1 then parts[0]
    else parts[0] + [sep] + Join(parts[1..], sep)
  }

  /** `s.split(sep)` for a one-character separator: never empty, no piece holds
      the separator, and joining the pieces gives back `s`. */
  function Split(s: string, sep: char): (parts: seq<string>)
    ensures |parts| >= 1
    ensures forall i | 0 <= i < |parts| :: sep !in parts[i]
    ensures Join(parts, sep) == s
    decreases |s|
  {
    if sep !in s then [s]
    else
      var i := IndexOf(s, sep);
      var rest := Split(s[i + 1..], sep);
      assert s == s[..i] + [sep] + s[i + 1..];
      [s[..i]] + rest
  }

  /** Splitting undoes joining when no piece holds the separator. */
  lemma {:induction false} SplitJoin(parts: seq<string>, sep: char)
    requires |parts| >= 1
    requires forall i | 0 <= i < |parts| :: sep !in parts[i]
    ensures Split(Join(parts, sep), sep) == parts
    decreases |parts|
  {
    if |parts| == 1 {
      assert Join(parts, sep) == parts[0];
    } else {
      var tail := Join(parts[1..], sep);
      var s := parts[0] + [sep] + tail;
      assert Join(parts, sep) == s;
      assert sep in s by { assert s[|parts[0]|] == sep; }
      assert IndexOf(s, sep) == |parts[0]| by {
        var k := IndexOf(s, sep);
        assert s[..|parts[0]|] == parts[0];
        if k != |parts[0]| {
          assert false;
        }
      }
      assert s[..|parts[0]|] == parts[0];
      assert s[|parts[0]| + 1..] == tail;
      SplitJoin(parts[1..], sep);
      assert Split(s, sep) == [parts[0]] + parts[1..];
    }
  }

  predicate IsDigit(c: char) {
    '0' <= c <= '9'
  }

  predicate AllDigits(s: string) {
    forall i | 0 <= i < |s| :: IsDigit(s[i])
  }

  /** The value of a run of decimal digits, most significant first. */
  function DigitsValue(s: string): nat
    requires AllDigits(s)
  {
    if s == [] then 0 else DigitsValue(s[..|s| - 1]) * 10 + (s[|s| - 1] as int - '0' as int)
  }

  /** Python `int(s)` for a `str` argument: surrounding whitespace is ignored, an
      optional sign is allowed, and at least one ASCII digit must follow;
      anything else is a `ValueError`, modelled as `None`. */
  function ParseInt(s: string): (r: Option<int>)
    ensures IsBlank(s) ==> r.None?
    ensures r.Some? ==> AllDigits(Strip(s)) || (|Strip(s)| >= 2 && (Strip(s)[0] == '+' || Strip(s)[0] == '-'))
  {
    SignedDigits(Strip(s))
  }

  /** `int()` of an already stripped string. */
  function SignedDigits(t: string): (r: Option<int>)
    ensures t == [] ==> r.None?
    ensures r.Some? ==> AllDigits(t) || (|t| >= 2 && (t[0] == '+' || t[0] == '-'))
  {
    if |t| > 0 && (t[0] == '+' || t[0] == '-') then
      var d := t[1..];
      if |d| > 0 && AllDigits(d) then
        var v: int := DigitsValue(d);
        Some(if t[0] == '-' then -v else v)
      else None
    else if |t| > 0 && AllDigits(t) then Some(DigitsValue(t))
    else None
  }

  /** What `int()` reads, once stripped: a run of digits gives its value, a
      sign followed by at least one digit gives the signed value of those
      digits, and nothing else is read. */
  lemma ParseIntReads(s: string)
    ensures var t := Strip(s);
            ParseInt(s).Some? ==>
              (t != [] && AllDigits(t) && ParseInt(s) == Some(DigitsValue(t)))
              || (|t| >= 2 && (t[0] == '+' || t[0] == '-') && AllDigits(t[1..])
                  && ParseInt(s) == Some(if t[0] == '-' then -(DigitsValue(t[1..]) as int) else DigitsValue(t[1..])))
  {
  }

  /** Whitespace around a number does not change what `int()` reads. */
  lemma ParseIntIgnoresPadding(s: string)
    ensures ParseInt(Strip(s)) == ParseInt(s)
  {
    StripIdempotent(s);
  }

  /** Every optionally signed run of digits, padded with whitespace or not,
      is a number `int()` reads: the digits' value, negated after `-`. */
  lemma ParseSignedDigits(pre: string, d: string, post: string)
    requires IsBlank(pre) && IsBlank(post)
    requires d != [] && AllDigits(d)
    ensures ParseInt(pre + d + post) == Some(DigitsValue(d))
    ensures ParseInt(pre + ("+" + d) + post) == Some(DigitsValue(d))
    ensures ParseInt(pre + ("-" + d) + post) == Some(-(DigitsValue(d) as int))
  {
    SignedDigitsOfDigits(d);
    ParsePadded(pre, d, post);
    SignedDigitsOfSign('+', d);
    ParsePadded(pre, "+" + d, post);
    SignedDigitsOfSign('-', d);
    ParsePadded(pre, "-" + d, post);
  }

  /** Bare digits: their value, and no padding. */
  lemma SignedDigitsOfDigits(d: string)
    requires d != [] && AllDigits(d)
    ensures Unpadded(d)
    ensures SignedDigits(d) == Some(DigitsValue(d))
  {
    assert IsDigit(d[0]) && IsDigit(d[|d| - 1]);
  }

  /** `int()` of a padded word reads the word. */
  lemma ParsePadded(pre: string, x: string, post: string)
    requires IsBlank(pre) && IsBlank(post)
    requires x != [] && Unpadded(x)
    ensures ParseInt(pre + x + post) == SignedDigits(x)
  {
    StripPadded(pre, x, post);
  }

  /** A sign in front of digits: the signed value, and no padding. */
  lemma SignedDigitsOfSign(c: char, d: string)
    requires c == '+' || c == '-'
    requires d != [] && AllDigits(d)
    ensures Unpadded([c] + d)
    ensures SignedDigits([c] + d) == Some(if c == '-' then -(DigitsValue(d) as int) else DigitsValue(d))
  {
    var t := [c] + d;
    assert t[1..] == d;
    assert t[|t| - 1] == d[|d| - 1] && IsDigit(d[|d| - 1]);
  }

  /** The decimal digits of a natural number, most significant first. */
  function NatDigits(n: nat): (r: string)
    ensures |r| >= 1 && AllDigits(r)
  {
    if n < 10 then ['0' + n as char] else NatDigits(n / 10) + ['0' + (n % 10) as char]
  }

  /** `str(n)` for a Python `int`. */
  function DecimalString(n: int): (r: string)
    ensures |r| >= 1
    ensures n >= 0 ==> AllDigits(r)
    ensures n < 0 ==> r[0] == '-' && AllDigits(r[1..])
  {
    if n < 0 then "-" + NatDigits(-n) else NatDigits(n)
  }

  lemma {:induction false} NatDigitsValue(n: nat)
    ensures DigitsValue(NatDigits(n)) == n
  {
    if n >= 10 {
      var d := NatDigits(n);
      assert d[..|d| - 1] == NatDigits(n / 10);
      NatDigitsValue(n / 10);
    }
  }

  /** `str(n)` neither starts nor ends with whitespace. */
  lemma DecimalStringTrimmed(n: int)
    ensures !IsSpace(DecimalString(n)[0]) && !IsSpace(DecimalString(n)[|DecimalString(n)| - 1])
  {
    var s := DecimalString(n);
    if n < 0 {
      assert s[|s| - 1] == NatDigits(-n)[|NatDigits(-n)| - 1];
    } else {
      assert IsDigit(s[0]) && IsDigit(s[|s| - 1]);
    }
  }

  /** `int(str(n)) == n`. */
  lemma ParseDecimalString(n: int)
    ensures ParseInt(DecimalString(n)) == Some(n)
  {
    var s := DecimalString(n);
    DecimalStringTrimmed(n);
    StripKeepsTrimmed(s);
    if n < 0 {
      NatDigitsValue(-n);
      assert s[1..] == NatDigits(-n);
    } else {
      NatDigitsValue(n);
    }
  }

  /** The stripped, non-blank pieces, in order. */
  function KeepTrimmed(parts: seq<string>): (r: seq<string>)
    ensures |r| <= |parts|
  {
    if parts == [] then []
    else
      var t := Strip(parts[0]);
      var rest := KeepTrimmed(parts[1..]);
      if t == [] then rest else [t] + rest
  }

  /** Every kept piece is non-blank and already stripped. */
  lemma {:induction false} KeepTrimmedTrimmed(parts: seq<string>)
    ensures forall i | 0 <= i < |KeepTrimmed(parts)| ::
              KeepTrimmed(parts)[i] != [] && Strip(KeepTrimmed(parts)[i]) == KeepTrimmed(parts)[i]
    decreases |parts|
  {
    if parts != [] {
      var t := Strip(parts[0]);
      var rest := KeepTrimmed(parts[1..]);
      KeepTrimmedTrimmed(parts[1..]);
      if t != [] {
        StripIdempotent(parts[0]);
        assert KeepTrimmed(parts) == [t] + rest;
        forall i | 0 <= i < |[t] + rest|
          ensures ([t] + rest)[i] != [] && Strip(([t] + rest)[i]) == ([t] + rest)[i]
        {
          if i > 0 {
            assert ([t] + rest)[i] == rest[i - 1];
          }
        }
      }
    }
  }

  /** Stripping never brings in a character. */
  lemma StripKeepsOut(s: string, c: char)
    ensures c !in s ==> c !in Strip(s)
  {
  }

  /** Pieces free of commas stay free of commas. */
  lemma {:induction false} KeepTrimmedCommaFree(parts: seq<string>)
    requires forall i | 0 <= i < |parts| :: ',' !in parts[i]
    ensures forall i | 0 <= i < |KeepTrimmed(parts)| :: ',' !in KeepTrimmed(parts)[i]
    decreases |parts|
  {
    if parts != [] {
      StripKeepsOut(parts[0], ',');
      KeepTrimmedCommaFree(parts[1..]);
    }
  }

  /** Names that are already trimmed are kept as they are. */
  lemma {:induction false} KeepTrimmedOfTrimmed(names: seq<string>)
    requires forall i | 0 <= i < |names| :: names[i] != [] && Unpadded(names[i])
    ensures KeepTrimmed(names) == names
    decreases |names|
  {
    if names != [] {
      StripKeepsTrimmed(names[0]);
      KeepTrimmedOfTrimmed(names[1..]);
      assert KeepTrimmed(names) == [names[0]] + KeepTrimmed(names[1..]);
      assert [names[0]] + names[1..] == names;
    }
  }

  /** Somewhere in `xs` is an entry that strips to `u`. */
  predicate StripsTo(xs: seq<string>, u: string) {
    exists i | 0 <= i < |xs| :: Strip(xs[i]) == u
  }

  /** What `KeepTrimmed` keeps: exactly the non-empty results of stripping
      the entries. */
  lemma {:induction false} KeepTrimmedHolds(xs: seq<string>, u: string)
    ensures u in KeepTrimmed(xs) <==> u != [] && StripsTo(xs, u)
    decreases |xs|
  {
    if xs != [] {
      KeepTrimmedHolds(xs[1..], u);
      assert StripsTo(xs, u) <==> Strip(xs[0]) == u || StripsTo(xs[1..], u) by {
        assert forall i | 1 <= i < |xs| :: xs[i] == xs[1..][i - 1];
        if StripsTo(xs, u) && Strip(xs[0]) != u {
          var i :| 0 <= i < |xs| && Strip(xs[i]) == u;
          assert xs[1..][i - 1] == xs[i];
        }
      }
    }
  }

  /** A comma-separated list as the toolkit reads it (`_parse_csv`,
      `parse_tools_csv`): `None` or `""` is the empty list; otherwise the
      comma-separated pieces, stripped, with the blank ones dropped. */
  function ParseCsv(csv: Option<string>): (r: seq<string>)
    ensures csv.None? || csv == Some("") ==> r == []
    ensures forall i | 0 <= i < |r| :: r[i] != [] && Strip(r[i]) == r[i] && ',' !in r[i]
  {
    if csv.None? || csv.value == [] then []
    else
      var parts := Split(csv.value, ',');
      KeepTrimmedCommaFree(parts);
      KeepTrimmedTrimmed(parts);
      KeepTrimmed(parts)
  }

  /** The list holds exactly the non-blank comma-separated pieces, stripped. */
  lemma ParseCsvHolds(csv: string, u: string)
    ensures u in ParseCsv(Some(csv)) <==> u != [] && StripsTo(Split(csv, ','), u)
  {
    if csv != [] {
      KeepTrimmedHolds(Split(csv, ','), u);
    } else {
      assert Split(csv, ',') == [""];
    }
  }

  /** Joining trimmed, non-empty, comma-free names with commas and parsing
      the result gives the names back. */
  lemma ParseCsvOfJoin(names: seq<string>)
    requires forall i | 0 <= i < |names| :: names[i] != [] && ',' !in names[i]
    requires forall i | 0 <= i < |names| :: Unpadded(names[i])
    ensures ParseCsv(Some(Join(names, ','))) == names
  {
    if names != [] {
      var csv := Join(names, ',');
      JoinStartsWithFirst(names);
      SplitJoin(names, ',');
      KeepTrimmedOfTrimmed(names);
      assert ParseCsv(Some(csv)) == KeepTrimmed(Split(csv, ','));
    }
  }

  /** A comma-joined list starts with its first name. */
  lemma JoinStartsWithFirst(names: seq<string>)
    requires names != []
    ensures names[0] <= Join(names, ',')
  {
  }

  /** Whitespace in front of a word is all `lstrip()` removes. */
  lemma {:induction false} LStripPadded(pre: string, x: string)
    requires IsBlank(pre) && x != [] && !IsSpace(x[0])
    ensures LStrip(pre + x) == x
    decreases |pre|
  {
    if pre == [] {
      assert pre + x == x;
    } else {
      assert (pre + x)[1..] == pre[1..] + x;
      LStripPadded(pre[1..], x);
    }
  }

  /** Whitespace after a word is all `rstrip()` removes. */
  lemma {:induction false} RStripPadded(x: string, post: string)
    requires IsBlank(post) && x != [] && !IsSpace(x[|x| - 1])
    ensures RStrip(x + post) == x
    decreases |post|
  {
    if post == [] {
      assert x + post == x;
    } else {
      var shorter := post[..|post| - 1];
      assert (x + post)[..|x + post| - 1] == x + shorter;
      RStripPadded(x, shorter);
    }
  }

  /** `(pre + x + post).strip() == x` for blank padding around an unpadded,
      non-empty `x`. */
  lemma StripPadded(pre: string, x: string, post: string)
    requires IsBlank(pre) && IsBlank(post)
    requires x != [] && Unpadded(x)
    ensures Strip(pre + x + post) == x
  {
    assert pre + x + post == pre + (x + post);
    LStripPadded(pre, x + post);
    RStripPadded(x, post);
  }

  /** `s.upper().lower() == s.lower()` on ASCII letters. */
  /** Lower-casing twice is lower-casing once. */
  lemma LowerIdempotent(s: string)
    ensures Lower(Lower(s)) == Lower(s)
  {
  }

  lemma LowerOfUpper(s: string)
    ensures Lower(Upper(s)) == Lower(s)
  {
    assert forall i | 0 <= i < |s| :: LowerChar(UpperChar(s[i])) == LowerChar(s[i]);
  }

  /** Upper-casing never turns a letter into whitespace. */
  lemma UpperUnpadded(s: string)
    requires Unpadded(s)
    ensures Unpadded(Upper(s))
  {
  }

  /** Upper-casing works piece by piece. */
  lemma {:induction false} UpperAppend(a: string, b: string)
    ensures Upper(a + b) == Upper(a) + Upper(b)
    decreases |a|
  {
    if a == [] {
      assert a + b == b;
    } else {
      assert (a + b)[1..] == a[1..] + b;
      UpperAppend(a[1..], b);
    }
  }
}
