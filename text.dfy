/** Text helpers shared by the configuration readers and the auth gate:
    ASCII case folding (the comparisons in toml_env.rs go through
    `to_lowercase`), Rust's `split_whitespace`, and decimal numerals. */
module Text {
  import opened Wrappers

  // ---------------------------------------------------------------------
  // Case folding
  // ---------------------------------------------------------------------

  predicate IsUpper(c: char) { 'A' <= c <= 'Z' }

  predicate IsLower(c: char) { 'a' <= c <= 'z' }

  function LowerChar(c: char): (r: char)
    ensures !IsUpper(r)
    ensures IsUpper(c) ==> IsLower(r) && r as int == c as int + 32
    ensures !IsUpper(c) ==> r == c
  {
    if IsUpper(c) then (c as int + 32) as char else c
  }

  function UpperChar(c: char): char {
    if IsLower(c) then (c as int - 32) as char else c
  }

  /** `to_lowercase` restricted to ASCII letters: each character is
      lowered on its own, so the result has no upper-case letter. */
  function Lowercase(s: string): (r: string)
    ensures |r| == |s|
    ensures forall i :: 0 <= i < |s| ==> r[i] == LowerChar(s[i])
    ensures IsLowercase(r)
  {
    if s == [] then [] else [LowerChar(s[0])] + Lowercase(s[1..])
  }

  /** Text without upper-case ASCII letters: the form every name that the
      configuration readers compare against is written in. */
  predicate IsLowercase(t: string) {
    forall i :: 0 <= i < |t| ==> !IsUpper(t[i])
  }

  /** `s` spells `t` with some of `t`'s letters in upper case. This is the
      independent definition of "case-insensitively equal to t". */
  predicate CaseVariant(s: string, t: string) {
    |s| == |t| && forall i :: 0 <= i < |s| ==> s[i] == t[i] || s[i] == UpperChar(t[i])
  }

  lemma LowerCharIs(c: char, d: char)
    requires !IsUpper(d)
    ensures LowerChar(c) == d <==> c == d || c == UpperChar(d)
  {
  }

  /** Lower-casing and comparing with a lower-case name is the same as being
      a case variant of that name. */
  lemma {:induction false} LowercaseEqualsIff(s: string, t: string)
    requires IsLowercase(t)
    ensures Lowercase(s) == t <==> CaseVariant(s, t)
  {
    if s == [] || t == [] {
    } else {
      LowerCharIs(s[0], t[0]);
      LowercaseEqualsIff(s[1..], t[1..]);
      assert Lowercase(s) == [LowerChar(s[0])] + Lowercase(s[1..]);
      assert t == [t[0]] + t[1..];
      if Lowercase(s) == t {
        assert Lowercase(s[1..]) == t[1..];
        forall i | 0 <= i < |s| ensures s[i] == t[i] || s[i] == UpperChar(t[i]) {
          if i > 0 { assert s[i] == s[1..][i - 1] && t[i] == t[1..][i - 1]; }
        }
      }
      if CaseVariant(s, t) {
        forall i | 0 <= i < |s[1..]| ensures s[1..][i] == t[1..][i] || s[1..][i] == UpperChar(t[1..][i]) {
          assert s[1..][i] == s[i + 1] && t[1..][i] == t[i + 1];
        }
      }
    }
  }

  lemma CaseVariantOfItself(t: string)
    ensures CaseVariant(t, t)
  {
  }

  // ---------------------------------------------------------------------
  // split_whitespace
  // ---------------------------------------------------------------------

  /** Unicode White_Space, which is what `char::is_whitespace` and so
      `str::split_whitespace` use. */
  predicate IsWhitespace(c: char) {
    || c == ' ' || '\t' <= c <= '\r'
    || c == '\U{85}' || c == '\U{A0}' || c == '\U{1680}'
    || '\U{2000}' <= c <= '\U{200A}'
    || c == '\U{2028}' || c == '\U{2029}' || c == '\U{202F}' || c == '\U{205F}'
    || c == '\U{3000}'
  }

  /** Nothing but whitespace (possibly nothing at all). */
  predicate IsBlank(s: string) {
    forall i :: 0 <= i < |s| ==> IsWhitespace(s[i])
  }

  /** A non-empty run of non-whitespace characters. */
  predicate IsWord(w: string) {
    |w| > 0 && forall i :: 0 <= i < |w| ==> !IsWhitespace(w[i])
  }

  /** The length of the leading run of non-whitespace characters. */
  function WordLength(s: string): (n: nat)
    ensures n <= |s|
    ensures forall i :: 0 <= i < n ==> !IsWhitespace(s[i])
    ensures n < |s| ==> IsWhitespace(s[n])
  {
    if s == [] || IsWhitespace(s[0]) then 0 else 1 + WordLength(s[1..])
  }

  /** `s.split_whitespace()`, collected: the maximal non-whitespace runs of
      `s`, in order; leading, trailing and repeated whitespace yields no
      empty words. */
  function Words(s: string): (ws: seq<string>)
    ensures forall i :: 0 <= i < |ws| ==> IsWord(ws[i])
    decreases |s|
  {
    if s == [] then []
    else if IsWhitespace(s[0]) then Words(s[1..])
    else
      var n := WordLength(s);
      [s[..n]] + Words(s[n..])
  }

  /** The words joined with single spaces: the reference against which
      `Words` is checked. */
  function Unwords(ws: seq<string>): string {
    if ws == [] then ""
    else if |ws| == 1 then ws[0]
    else ws[0] + " " + Unwords(ws[1..])
  }

  lemma {:induction false} WordLengthOfWord(w: string, rest: string)
    requires IsWord(w)
    requires rest == [] || IsWhitespace(rest[0])
    ensures WordLength(w + rest) == |w|
    decreases |w|
  {
    var s := w + rest;
    assert s[0] == w[0];
    if |w| > 1 {
      assert s[1..] == w[1..] + rest;
      WordLengthOfWord(w[1..], rest);
    } else {
      assert s[1..] == rest;
    }
  }

  /** A word followed by nothing or by whitespace is the first word. */
  lemma WordsOfWordThen(w: string, rest: string)
    requires IsWord(w)
    requires rest == [] || IsWhitespace(rest[0])
    ensures Words(w + rest) == [w] + Words(rest)
  {
    WordLengthOfWord(w, rest);
    var s := w + rest;
    assert s[..|w|] == w;
    assert s[|w|..] == rest;
  }

  /** Splitting single-space-joined words gives the words back. */
  lemma {:induction false} WordsOfUnwords(ws: seq<string>)
    requires forall i :: 0 <= i < |ws| ==> IsWord(ws[i])
    ensures Words(Unwords(ws)) == ws
  {
    if ws == [] {
    } else if |ws| == 1 {
      WordsOfWordThen(ws[0], []);
      assert ws[0] + [] == ws[0];
    } else {
      var tail := Unwords(ws[1..]);
      WordsOfUnwords(ws[1..]);
      assert Unwords(ws) == ws[0] + (" " + tail);
      WordsOfWordThen(ws[0], " " + tail);
      assert (" " + tail)[1..] == tail;
      assert ws == [ws[0]] + ws[1..];
    }
  }

  /** Whitespace in front of the text does not change its words. */
  lemma {:induction false} WordsSkipLeadingWhitespace(pad: string, s: string)
    requires IsBlank(pad)
    ensures Words(pad + s) == Words(s)
  {
    if pad != [] {
      assert (pad + s)[1..] == pad[1..] + s;
      WordsSkipLeadingWhitespace(pad[1..], s);
    } else {
      assert pad + s == s;
    }
  }

  /** Blank text has no words. */
  lemma WordsOfBlank(pad: string)
    requires IsBlank(pad)
    ensures Words(pad) == []
  {
    WordsSkipLeadingWhitespace(pad, []);
    assert pad + [] == pad;
  }

  /** Any whitespace, then a word ending at whitespace or at the end of the
      text: that word is the first of the words. With `WordsOfBlank` this
      fixes `Words` on every text, whatever whitespace separates the words. */
  lemma WordsOfFirstWord(pad: string, w: string, rest: string)
    requires IsBlank(pad) && IsWord(w)
    requires rest == [] || IsWhitespace(rest[0])
    ensures Words(pad + w + rest) == [w] + Words(rest)
  {
    assert pad + w + rest == pad + (w + rest);
    WordsSkipLeadingWhitespace(pad, w + rest);
    WordsOfWordThen(w, rest);
  }

  // ---------------------------------------------------------------------
  // Decimal numerals
  // ---------------------------------------------------------------------

  predicate IsDigit(c: char) { '0' <= c <= '9' }

  predicate AllDigits(s: string) {
    forall i :: 0 <= i < |s| ==> IsDigit(s[i])
  }

  function DigitChar(d: nat): (c: char)
    requires d < 10
    ensures IsDigit(c)
  {
    ('0' as int + d) as char
  }

  /** The value of a string of decimal digits. */
  function DigitsValue(s: string): nat
    requires AllDigits(s)
  {
    if s == [] then 0 else DigitsValue(s[..|s| - 1]) * 10 + (s[|s| - 1] as int - '0' as int)
  }

  /** How `{}` prints an unsigned integer: its decimal digits, no sign and
      no leading zero. */
  function FormatNat(n: nat): (s: string)
    ensures |s| > 0 && AllDigits(s)
    ensures |s| > 1 ==> s[0] != '0'
    ensures AllDigits(s) && DigitsValue(s) == n
  {
    if n < 10 then [DigitChar(n)]
    else
      var s := FormatNat(n / 10) + [DigitChar(n % 10)];
      assert s[..|s| - 1] == FormatNat(n / 10);
      s
  }

  /** A non-empty run of decimal digits, read as a number. */
  function ParseNat(s: string): (r: Option<nat>)
    ensures r.Some? <==> |s| > 0 && AllDigits(s)
  {
    if |s| > 0 && AllDigits(s) then Some(DigitsValue(s)) else None
  }

  /** Digits without a leading zero are the way their value prints, so
      `FormatNat` is the only canonical numeral of a number. */
  lemma {:induction false} CanonicalDigits(s: string)
    requires |s| > 0 && AllDigits(s) && (|s| > 1 ==> s[0] != '0')
    ensures FormatNat(DigitsValue(s)) == s
  {
    if |s| > 1 {
      var init := s[..|s| - 1];
      assert forall i :: 0 <= i < |init| ==> init[i] == s[i];
      CanonicalDigits(init);
      var v := DigitsValue(init);
      var d := s[|s| - 1] as int - '0' as int;
      assert v != 0;
      assert DigitsValue(s) == v * 10 + d;
      assert DigitsValue(s) / 10 == v && DigitsValue(s) % 10 == d;
      assert s == init + [s[|s| - 1]];
    }
  }

  lemma FormatNatBounds(n: nat)
    ensures n < 10 ==> |FormatNat(n)| == 1
    ensures n < 100 ==> |FormatNat(n)| <= 2
    ensures n < 1000 ==> |FormatNat(n)| <= 3
  {
    if n >= 10 {
      FormatNatBounds(n / 10);
    }
  }
}
