/** The pieces of Go's `strings` and `strconv` packages the step relies on, restricted to
    what the step needs: splitting on one character, joining, whitespace trimming,
    `strings.Title` on ASCII text, and decimal digit runs. */
module Text {

  predicate IsDigit(c: char) {
    '0' <= c <= '9'
  }

  predicate IsAsciiLower(c: char) {
    'a' <= c <= 'z'
  }

  predicate IsAsciiUpper(c: char) {
    'A' <= c <= 'Z'
  }

  /** Characters that do not start a new word for `strings.Title`: letters, digits and `_`. */
  predicate IsWordChar(c: char) {
    IsAsciiLower(c) || IsAsciiUpper(c) || IsDigit(c) || c == '_'
  }

  /** Go's `unicode.IsSpace`, which `strings.TrimSpace` trims. */
  predicate IsSpace(c: char) {
    || c == ' ' || c == '\t' || c == '\n' || c == '\r'
    || c as int == 0x0B || c as int == 0x0C || c as int == 0x85 || c as int == 0xA0
    || c as int == 0x1680 || (0x2000 <= c as int <= 0x200A)
    || c as int == 0x2028 || c as int == 0x2029 || c as int == 0x202F
    || c as int == 0x205F || c as int == 0x3000
  }

  predicate AllSpace(s: string) {
    forall k :: 0 <= k < |s| ==> IsSpace(s[k])
  }

  predicate AllDigits(s: string) {
    forall k :: 0 <= k < |s| ==> IsDigit(s[k])
  }

  function ToUpper(c: char): (u: char)
    ensures IsAsciiLower(c) ==> IsAsciiUpper(u) && u as int == c as int - 32
    ensures !IsAsciiLower(c) ==> u == c
  {
    if IsAsciiLower(c) then (c as int - 32) as char else c
  }

  // ---------------------------------------------------------------------------
  // strings.Title

  /** The character at position `i` of the title-cased text: a lower-case letter is
      raised exactly when it starts a word, that is when it is first and the text before
      it did not end in a word character (`prevIsWord`), or follows a non-word character. */
  function TitledAt(prevIsWord: bool, s: string, i: nat): char
    requires i < |s|
  {
    var startsWord := if i == 0 then !prevIsWord else !IsWordChar(s[i - 1]);
    if IsAsciiLower(s[i]) && startsWord then ToUpper(s[i]) else s[i]
  }

  function TitleAfter(prevIsWord: bool, s: string): (r: string)
    ensures |r| == |s|
    ensures forall i :: 0 <= i < |s| ==> r[i] == TitledAt(prevIsWord, s, i)
    decreases |s|
  {
    if s == [] then []
    else
      var rest := TitleAfter(IsWordChar(s[0]), s[1..]);
      var r := [TitledAt(prevIsWord, s, 0)] + rest;
      assert forall i :: 1 <= i < |s| ==> r[i] == rest[i - 1];
      assert forall i :: 1 <= i < |s| ==> TitledAt(prevIsWord, s, i) == TitledAt(IsWordChar(s[0]), s[1..], i - 1);
      r
  }

  /** `strings.Title` on ASCII text: the first letter of every word is upper-cased,
      where a word starts at the beginning or after a character that is not a letter,
      digit or underscore. */
  function Title(s: string): (r: string)
    ensures |r| == |s|
    ensures |s| > 0 ==> r[0] == ToUpper(s[0])
    ensures forall i :: 0 < i < |s| ==>
      r[i] == (if IsAsciiLower(s[i]) && !IsWordChar(s[i - 1]) then ToUpper(s[i]) else s[i])
  {
    TitleAfter(false, s)
  }

  // ---------------------------------------------------------------------------
  // strings.Split / strings.Join

  function IndexOf(s: string, c: char): (k: nat)
    requires c in s
    ensures k < |s| && s[k] == c && c !in s[..k]
  {
    if s[0] == c then 0
    else
      assert c in s[1..] by { assert s == [s[0]] + s[1..]; }
      var k := 1 + IndexOf(s[1..], c);
      assert s[..k] == [s[0]] + s[1..][..k - 1];
      k
  }

  /** `strings.Join`: the parts with `sep` between neighbours. The result starts with
      the first part. */
  function JoinWith(parts: seq<string>, sep: string): (r: string)
    ensures parts == [] ==> r == []
    ensures parts != [] ==> |parts[0]| <= |r| && r[..|parts[0]|] == parts[0]
    decreases |parts|
  {
    if |parts| == 0 then ""
    else if |parts| == 1 then parts[0]
    else
      parts[0] + sep + JoinWith(parts[1..], sep)
  }

  /** A join ends with its last part. */
  lemma {:induction false} JoinWithEndsWithLast(parts: seq<string>, sep: string)
    requires parts != []
    ensures var r := JoinWith(parts, sep);
      |parts[|parts| - 1]| <= |r| && r[|r| - |parts[|parts| - 1]|..] == parts[|parts| - 1]
    decreases |parts|
  {
    if |parts| > 1 {
      var rest := JoinWith(parts[1..], sep);
      var r := JoinWith(parts, sep);
      JoinWithEndsWithLast(parts[1..], sep);
      assert parts[1..][|parts[1..]| - 1] == parts[|parts| - 1];
      assert r == parts[0] + sep + rest;
      assert r[|r| - |rest|..] == rest;
    }
  }

  /** `strings.Split` on a one-character separator. The pieces never contain the
      separator and joining them back gives the input, which pins them down uniquely;
      an input without the separator (the empty string included) is one piece. */
  function Split(s: string, sep: char): (parts: seq<string>)
    ensures |parts| >= 1
    ensures forall i :: 0 <= i < |parts| ==> sep !in parts[i]
    ensures JoinWith(parts, [sep]) == s
    ensures sep !in s ==> parts == [s]
    ensures sep in s ==> parts[0] == s[..IndexOf(s, sep)]
    decreases |s|
  {
    if sep !in s then [s]
    else
      var k := IndexOf(s, sep);
      var rest := Split(s[k + 1..], sep);
      assert s == s[..k] + [sep] + s[k + 1..];
      [s[..k]] + rest
  }

  /** Splitting a join of separator-free pieces gives the pieces back. */
  lemma {:induction false} SplitOfJoin(parts: seq<string>, sep: char)
    requires |parts| >= 1
    requires forall i :: 0 <= i < |parts| ==> sep !in parts[i]
    ensures Split(JoinWith(parts, [sep]), sep) == parts
    decreases |parts|
  {
    if |parts| > 1 {
      var a := parts[0];
      var tail := JoinWith(parts[1..], [sep]);
      var s := JoinWith(parts, [sep]);
      assert s == a + [sep] + tail;
      assert s[|a|] == sep;
      var k := IndexOf(s, sep);
      assert forall j :: 0 <= j < |a| ==> s[j] == a[j];
      assert forall j :: 0 <= j < k ==> s[..k][j] == s[j];
      assert k == |a|;
      assert s[k + 1..] == tail;
      assert s[..k] == a;
      assert forall i :: 0 <= i < |parts| - 1 ==> parts[1..][i] == parts[i + 1];
      SplitOfJoin(parts[1..], sep);
      assert parts == [a] + parts[1..];
    }
  }

  /** A separator at the end of a join is a join with one more, empty, piece. */
  lemma {:induction false} JoinWithEmptyLast(parts: seq<string>, sep: string)
    requires |parts| >= 1
    ensures JoinWith(parts + [""], sep) == JoinWith(parts, sep) + sep
    decreases |parts|
  {
    var longer := parts + [""];
    assert longer[0] == parts[0];
    if |parts| == 1 {
      assert longer[1..] == [""];
    } else {
      assert longer[1..] == parts[1..] + [""];
      JoinWithEmptyLast(parts[1..], sep);
    }
  }

  // ---------------------------------------------------------------------------
  // strings.TrimSpace

  function LeadingSpaces(s: string): (n: nat)
    ensures n <= |s|
    ensures AllSpace(s[..n])
    ensures n < |s| ==> !IsSpace(s[n])
    decreases |s|
  {
    if s == [] || !IsSpace(s[0]) then 0
    else
      var n := 1 + LeadingSpaces(s[1..]);
      assert s[..n] == [s[0]] + s[1..][..n - 1];
      n
  }

  function TrailingSpaces(s: string): (n: nat)
    ensures n <= |s|
    ensures AllSpace(s[|s| - n..])
    ensures n < |s| ==> !IsSpace(s[|s| - n - 1])
    decreases |s|
  {
    if s == [] || !IsSpace(s[|s| - 1]) then 0
    else
      var init := s[..|s| - 1];
      var m := TrailingSpaces(init);
      var n := 1 + m;
      var suffix := s[|s| - n..];
      var spaces := init[|init| - m..];
      assert forall k :: 0 <= k < m ==> suffix[k] == spaces[k];
      assert suffix[m] == s[|s| - 1];
      assert n < |s| ==> s[|s| - n - 1] == init[|init| - m - 1];
      n
  }

  /** `strings.TrimSpace`: the input with its leading and trailing white space removed.
      The result neither starts nor ends with white space, and only white space was cut. */
  function TrimSpace(s: string): (r: string)
    ensures |r| <= |s|
    ensures r == [] || (!IsSpace(r[0]) && !IsSpace(r[|r| - 1]))
    ensures exists a :: 0 <= a <= |s| - |r| && s[a..a + |r|] == r && AllSpace(s[..a]) && AllSpace(s[a + |r|..])
  {
    var a := LeadingSpaces(s);
    var rest := s[a..];
    var b := TrailingSpaces(rest);
    var r := rest[..|rest| - b];
    assert s[a..a + |r|] == r;
    assert s[a + |r|..] == rest[|rest| - b..];
    r
  }

  // ---------------------------------------------------------------------------
  // Decimal digit runs (strconv.Atoi on an all-digit string)

  function DigitValue(c: char): (d: nat)
    requires IsDigit(c)
    ensures d < 10
  {
    c as int - '0' as int
  }

  function DigitChar(d: nat): (c: char)
    requires d < 10
    ensures IsDigit(c) && DigitValue(c) == d
  {
    ('0' as int + d) as char
  }

  /** A string with no space at either end is its own trimmed form. */
  lemma TrimSpaceOfUnpadded(s: string)
    requires s != [] && !IsSpace(s[0]) && !IsSpace(s[|s| - 1])
    ensures TrimSpace(s) == s
  {
  }

  /** Trimming removes exactly the padding around an unpadded core. */
  lemma TrimSpaceOfPadded(pre: string, core: string, post: string)
    requires AllSpace(pre) && AllSpace(post)
    requires core != [] && !IsSpace(core[0]) && !IsSpace(core[|core| - 1])
    ensures TrimSpace(pre + core + post) == core
  {
    var s := pre + core + post;
    LeadingSpacesOf(pre, core + post);
    assert s == pre + (core + post);
    var rest := s[|pre|..];
    assert rest == core + post;
    TrailingSpacesOf(core, post);
  }

  lemma {:induction false} LeadingSpacesOf(pre: string, rest: string)
    requires AllSpace(pre) && rest != [] && !IsSpace(rest[0])
    ensures LeadingSpaces(pre + rest) == |pre|
    decreases |pre|
  {
    if pre != [] {
      assert (pre + rest)[1..] == pre[1..] + rest;
      LeadingSpacesOf(pre[1..], rest);
    }
  }

  lemma {:induction false} TrailingSpacesOf(rest: string, post: string)
    requires AllSpace(post) && rest != [] && !IsSpace(rest[|rest| - 1])
    ensures TrailingSpaces(rest + post) == |post|
    decreases |post|
  {
    if post != [] {
      assert (rest + post)[..|rest + post| - 1] == rest + post[..|post| - 1];
      TrailingSpacesOf(rest, post[..|post| - 1]);
    }
  }

  /** The decimal value of a run of digits; leading zeros are plain zeros, not an
      octal marker. */
  function DigitsValue(s: string): nat
    requires AllDigits(s)
    decreases |s|
  {
    if s == [] then 0 else DigitsValue(s[..|s| - 1]) * 10 + DigitValue(s[|s| - 1])
  }

  /** The canonical decimal spelling of `n`. */
  function Decimal(n: nat): (r: string)
    ensures |r| >= 1 && AllDigits(r)
    ensures r[0] == '0' ==> n == 0
    decreases n
  {
    if n < 10 then [DigitChar(n)] else Decimal(n / 10) + [DigitChar(n % 10)]
  }

  lemma {:induction false} DecimalRoundTrip(n: nat)
    ensures DigitsValue(Decimal(n)) == n
    decreases n
  {
    if n >= 10 {
      DecimalRoundTrip(n / 10);
      var r := Decimal(n);
      assert r[..|r| - 1] == Decimal(n / 10);
    }
  }

  /** The number of digits at the start of `s`. */
  function LeadingDigits(s: string): (n: nat)
    ensures n <= |s|
    ensures AllDigits(s[..n])
    ensures n < |s| ==> !IsDigit(s[n])
    decreases |s|
  {
    if s == [] || !IsDigit(s[0]) then 0
    else
      var n := 1 + LeadingDigits(s[1..]);
      assert s[..n] == [s[0]] + s[1..][..n - 1];
      n
  }

  lemma {:induction false} LeadingDigitsOfDigitsThen(d: string, rest: string)
    requires AllDigits(d)
    requires rest == [] || !IsDigit(rest[0])
    ensures LeadingDigits(d + rest) == |d|
    decreases |d|
  {
    if d != [] {
      assert (d + rest)[1..] == d[1..] + rest;
      LeadingDigitsOfDigitsThen(d[1..], rest);
    }
  }
}
