/** Optional values and the character-level helpers of the JavaScript string library. */
module Text {

  datatype Option<+T> = None | Some(value: T)

  /** White space and line terminators, as `String.prototype.trim` removes them. */
  predicate IsSpace(c: char) {
    c in "\t\n\U{0B}\U{0C}\r \U{A0}\U{1680}\U{2028}\U{2029}\U{202F}\U{205F}\U{3000}\U{FEFF}"
    || '\U{2000}' <= c <= '\U{200A}'
  }

  function TrimStart(s: string): string {
    if s != "" && IsSpace(s[0]) then TrimStart(s[1..]) else s
  }

  function TrimEnd(s: string): string {
    if s != "" && IsSpace(s[|s| - 1]) then TrimEnd(s[..|s| - 1]) else s
  }

  function Trim(s: string): string {
    TrimEnd(TrimStart(s))
  }

  /** Trimming is the identity on text with no white space at either end. */
  lemma TrimKeeps(s: string)
    requires s != "" ==> !IsSpace(s[0]) && !IsSpace(s[|s| - 1])
    ensures Trim(s) == s
  {
  }

  predicate Blank(s: string) { forall i :: 0 <= i < |s| ==> IsSpace(s[i]) }

  /** Trimming takes away the white space at both ends and nothing else. */
  lemma {:induction false} TrimMeans(before: string, core: string, after: string)
    requires Blank(before) && Blank(after)
    requires core != "" ==> !IsSpace(core[0]) && !IsSpace(core[|core| - 1])
    ensures Trim(before + core + after) == core
    decreases |before| + |after|
  {
    var s := before + core + after;
    if before != "" {
      assert s[0] == before[0] && s[1..] == before[1..] + core + after;
      TrimMeans(before[1..], core, after);
    } else if core == "" {
      assert s == after;
      BlankTrims(after);
    } else {
      assert s[0] == core[0];
      assert s == core + after;
      TrimEndOf(core, after);
    }
  }

  lemma {:induction false} BlankTrims(s: string)
    requires Blank(s)
    ensures Trim(s) == ""
  {
    if s != "" { BlankTrims(s[1..]); }
  }

  lemma {:induction false} TrimEndOf(core: string, after: string)
    requires Blank(after) && core != "" && !IsSpace(core[|core| - 1])
    ensures TrimEnd(core + after) == core
  {
    if after == "" {
      assert core + after == core;
    } else {
      assert (core + after)[..|core + after| - 1] == core + after[..|after| - 1];
      TrimEndOf(core, after[..|after| - 1]);
    }
  }

  /** Lower case of one Latin-1 character. */
  function LowerChar(c: char): char {
    if 'A' <= c <= 'Z' || ('\U{C0}' <= c <= '\U{DE}' && c != '\U{D7}') then (c as int + 32) as char else c
  }

  function Lower(s: string): string {
    seq(|s|, i requires 0 <= i < |s| => LowerChar(s[i]))
  }

  /** Upper case of the ASCII letters; no other Latin-1 letter has an ASCII capital of one character. */
  function Upper(s: string): string {
    seq(|s|, i requires 0 <= i < |s| => if 'a' <= s[i] <= 'z' then (s[i] as int - 32) as char else s[i])
  }

  const CAPITALS: string := "ABCDEFGHIJKLMNOPQRSTUVWXYZ"
  const SMALL: string := "abcdefghijklmnopqrstuvwxyz"

  lemma CapitalRange(c: char)
    ensures c in CAPITALS <==> 'A' <= c <= 'Z'
  {
    if 'A' <= c <= 'Z' {
      assert CAPITALS[c as int - 'A' as int] == c;
    }
  }

  lemma SmallRange(c: char)
    ensures c in SMALL <==> 'a' <= c <= 'z'
  {
    if 'a' <= c <= 'z' {
      assert SMALL[c as int - 'a' as int] == c;
    }
  }

  lemma DigitRange(c: char)
    ensures c in "0123456789" <==> '0' <= c <= '9'
  {
    if '0' <= c <= '9' {
      assert "0123456789"[c as int - '0' as int] == c;
    }
  }

  /** Lower case takes each ASCII capital to its small letter and keeps every other ASCII character. */
  lemma LowerMeans(s: string, i: nat, k: nat)
    requires i < |s| && k < 26
    ensures |Lower(s)| == |s|
    ensures s[i] == CAPITALS[k] ==> Lower(s)[i] == SMALL[k]
    ensures s[i] < '\U{80}' && s[i] !in CAPITALS ==> Lower(s)[i] == s[i]
  {
    hide CAPITALS, SMALL;
    LetterAt(k);
    CapitalRange(s[i]);
  }

  lemma UpperMeans(s: string, i: nat, k: nat)
    requires i < |s| && k < 26
    ensures |Upper(s)| == |s|
    ensures s[i] == SMALL[k] ==> Upper(s)[i] == CAPITALS[k]
    ensures s[i] < '\U{80}' && s[i] !in SMALL ==> Upper(s)[i] == s[i]
  {
    hide CAPITALS, SMALL;
    LetterAt(k);
    SmallRange(s[i]);
  }

  predicate Ascii(s: string) { forall i :: 0 <= i < |s| ==> s[i] < '\U{80}' }

  /** The same character, or a letter and its capital. */
  predicate SameLetter(a: char, b: char) {
    a == b || exists k :: 0 <= k < 26 && ((a == CAPITALS[k] && b == SMALL[k]) || (a == SMALL[k] && b == CAPITALS[k]))
  }

  predicate SameUpToCase(s: string, t: string) {
    |s| == |t| && forall i :: 0 <= i < |s| ==> SameLetter(s[i], t[i])
  }

  lemma LetterAt(k: nat)
    requires k < 26
    ensures |CAPITALS| == |SMALL| == 26 && CAPITALS[k] as int == 65 + k && SMALL[k] as int == 97 + k
  {
  }

  lemma LowerCharSame(a: char, b: char)
    requires a < '\U{80}' && b < '\U{80}'
    ensures LowerChar(a) == LowerChar(b) <==> SameLetter(a, b)
  {
    hide CAPITALS, SMALL;
    if LowerChar(a) == LowerChar(b) && a != b {
      LetterAt(LowerChar(a) as int - 97);
    }
    forall k: nat | k < 26 ensures |CAPITALS| == |SMALL| == 26 && CAPITALS[k] as int == 65 + k && SMALL[k] as int == 97 + k {
      LetterAt(k);
    }
  }

  /** Two texts have one lower case exactly when they differ in nothing but the case of letters. */
  lemma LowerSame(s: string, t: string)
    requires Ascii(s) && Ascii(t)
    ensures Lower(s) == Lower(t) <==> SameUpToCase(s, t)
  {
    hide LowerChar, SameLetter;
    if |s| == |t| {
      forall i | 0 <= i < |s| ensures Lower(s)[i] == Lower(t)[i] <==> SameLetter(s[i], t[i]) {
        LowerCharSame(s[i], t[i]);
      }
    }
    if Lower(s) == Lower(t) {
      assert |Lower(s)| == |s| && |Lower(t)| == |t|;
    }
  }

  /** The decimal numeral of a number. */
  function Decimal(n: nat): string {
    (if n < 10 then "" else Decimal(n / 10)) + ["0123456789"[n % 10]]
  }

  lemma DecimalStep(n: nat, d: nat)
    requires d < 10
    ensures Decimal(10 * n + d) == (if n == 0 then "" else Decimal(n)) + ["0123456789"[d]]
  {
    assert (10 * n + d) / 10 == n && (10 * n + d) % 10 == d;
  }

  /** Each digit as it is written, and the place it stands at. */
  lemma DecimalDigits()
    ensures Decimal(9876543210) == "9876543210"
    ensures Decimal(604800) == "604800"
  {
    hide Decimal;
    Appended("", 0, 9, "9");
    Appended("9", 9, 8, "98");
    Appended("98", 98, 7, "987");
    Appended("987", 987, 6, "9876");
    Appended("9876", 9876, 5, "98765");
    Appended("98765", 98765, 4, "987654");
    Appended("987654", 987654, 3, "9876543");
    Appended("9876543", 9876543, 2, "98765432");
    Appended("98765432", 98765432, 1, "987654321");
    Appended("987654321", 987654321, 0, "9876543210");
    Appended("", 0, 6, "6");
    Appended("6", 6, 0, "60");
    Appended("60", 60, 4, "604");
    Appended("604", 604, 8, "6048");
    Appended("6048", 6048, 0, "60480");
    Appended("60480", 60480, 0, "604800");
  }

  lemma Appended(before: string, n: nat, d: nat, after: string)
    requires d < 10 && before == (if n == 0 then "" else Decimal(n))
    requires after == before + ["0123456789"[d]]
    ensures Decimal(10 * n + d) == after
  {
    DecimalStep(n, d);
  }
}
