/**
 * Text helpers with Python's meaning: `str.isspace`, `str.strip`,
 * `sep.join(items)`, substring search and the decimal rendering of integers.
 */
module Texte {

  /** The characters Python's `str.isspace()` (and `\s` in a `str` regex) accepts. */
  const ESPACES: set<char> := {
    ' ', '\t', '\n', '\r', '\U{000B}', '\U{000C}', '\U{001C}', '\U{001D}', '\U{001E}', '\U{001F}',
    '\U{0085}', '\U{00A0}', '\U{1680}', '\U{2000}', '\U{2001}', '\U{2002}', '\U{2003}', '\U{2004}',
    '\U{2005}', '\U{2006}', '\U{2007}', '\U{2008}', '\U{2009}', '\U{200A}', '\U{2028}', '\U{2029}',
    '\U{202F}', '\U{205F}', '\U{3000}'
  }

  predicate IsSpace(c: char) {
    c in ESPACES
  }

  /** True when `s` has no whitespace at either end (what `strip()` leaves). */
  predicate IsTrimmed(s: string) {
    s == [] || (!IsSpace(s[0]) && !IsSpace(s[|s| - 1]))
  }

  /** True when every character of `s` is whitespace (so `s.strip()` is falsy). */
  predicate IsBlank(s: string) {
    forall k :: 0 <= k < |s| ==> IsSpace(s[k])
  }

  /** The end of the whitespace run that starts at `i`. */
  function FinEspaces(s: string, i: nat): (j: nat)
    requires i <= |s|
    ensures i <= j <= |s|
    ensures forall k :: i <= k < j ==> IsSpace(s[k])
    ensures j == |s| || !IsSpace(s[j])
    decreases |s| - i
  {
    if i < |s| && IsSpace(s[i]) then FinEspaces(s, i + 1) else i
  }

  /** The start of the whitespace run that ends at `j`, scanning leftwards but not past `i`. */
  function DebutEspaces(s: string, i: nat, j: nat): (k: nat)
    requires i <= j <= |s|
    ensures i <= k <= j
    ensures forall m :: k <= m < j ==> IsSpace(s[m])
    ensures k == i || !IsSpace(s[k - 1])
    decreases j - i
  {
    if i < j && IsSpace(s[j - 1]) then DebutEspaces(s, i, j - 1) else j
  }

  /** `str.strip()`: the text between the leading and the trailing whitespace. */
  function Strip(s: string): (r: string)
    ensures IsTrimmed(r) && |r| <= |s|
    ensures r == [] <==> IsBlank(s)
    ensures exists i :: (0 <= i <= |s| - |r| && s[i..i + |r|] == r
                         && IsBlank(s[..i]) && IsBlank(s[i + |r|..]))
  {
    var a := FinEspaces(s, 0);
    var b := DebutEspaces(s, a, |s|);
    assert a == b ==> IsBlank(s) by {
      if a == b {
        assert a == |s|;
      }
    }
    assert IsBlank(s[..a]) && IsBlank(s[b..]);
    s[a..b]
  }

  /** Stripping text that is already trimmed changes nothing, so `strip` is idempotent. */
  lemma StripTrimmed(s: string)
    requires IsTrimmed(s)
    ensures Strip(s) == s
  {
    if s != [] {
      assert FinEspaces(s, 0) == 0;
      assert DebutEspaces(s, 0, |s|) == |s|;
    }
  }

  lemma StripIdempotent(s: string)
    ensures Strip(Strip(s)) == Strip(s)
  {
    StripTrimmed(Strip(s));
  }

  /** `strip()` keeps a contiguous part of its input: it adds no character. */
  lemma StripSousChaine(s: string)
    ensures Contains(s, Strip(s))
    ensures forall c :: c in Strip(s) ==> c in s
  {
    var a := FinEspaces(s, 0);
    assert OccursAt(s, Strip(s), a);
  }

  /** A character absent from the text is absent from its stripped form. */
  lemma StripSansCaractere(s: string, c: char)
    requires c !in s
    ensures c !in Strip(s)
  {
    var r := Strip(s);
    var i :| 0 <= i <= |s| - |r| && s[i..i + |r|] == r && IsBlank(s[..i]) && IsBlank(s[i + |r|..]);
    forall k | 0 <= k < |r| ensures r[k] != c {
      assert r[k] == s[i + k];
    }
  }

  /** `sep.join(items)`. */
  function Join(sep: string, items: seq<string>): (r: string)
    ensures items == [] ==> r == []
    ensures |items| == 1 ==> r == items[0]
  {
    if items == [] then []
    else if |items| == 1 then items[0]
    else items[0] + sep + Join(sep, items[1..])
  }

  /** Python's `needle in hay` on strings. */
  predicate Contains(hay: string, needle: string) {
    exists i :: 0 <= i <= |hay| - |needle| && OccursAt(hay, needle, i)
  }

  /** `needle` occurs in `hay` starting at index `i`. */
  predicate OccursAt(hay: string, needle: string, i: int) {
    0 <= i <= |hay| - |needle| && hay[i..i + |needle|] == needle
  }

  lemma ContainsWithin(pre: string, mid: string, post: string, needle: string)
    requires Contains(mid, needle)
    ensures Contains(pre + mid + post, needle)
  {
    var i :| 0 <= i <= |mid| - |needle| && OccursAt(mid, needle, i);
    var h := pre + mid + post;
    assert 0 <= i <= |mid| - |needle| && mid[i..i + |needle|] == needle;
    assert h[|pre| + i..|pre| + i + |needle|] == mid[i..i + |needle|];
    assert OccursAt(h, needle, |pre| + i);
  }

  lemma ContainsMiddle(pre: string, mid: string, post: string)
    ensures Contains(pre + mid + post, mid)
  {
    assert OccursAt(mid, mid, 0);
    ContainsWithin(pre, mid, post, mid);
  }

  /** Every joined item appears verbatim in the joined text. */
  lemma {:induction false} JoinContains(sep: string, items: seq<string>, k: nat)
    requires k < |items|
    ensures Contains(Join(sep, items), items[k])
  {
    if |items| == 1 {
      assert OccursAt(Join(sep, items), items[0], 0);
    } else if k == 0 {
      ContainsWithin([], items[0], sep + Join(sep, items[1..]), items[0]) by {
        assert OccursAt(items[0], items[0], 0);
      }
      assert [] + items[0] + (sep + Join(sep, items[1..])) == Join(sep, items);
    } else {
      JoinContains(sep, items[1..], k - 1);
      ContainsWithin(items[0] + sep, Join(sep, items[1..]), [], items[k]);
      assert items[0] + sep + Join(sep, items[1..]) + [] == Join(sep, items);
    }
  }

  function DigitChar(d: nat): (c: char)
    requires d < 10
    ensures '0' <= c <= '9'
  {
    "0123456789"[d]
  }

  predicate IsDigit(c: char) { '0' <= c <= '9' }

  predicate AllDigits(s: string) { forall k :: 0 <= k < |s| ==> IsDigit(s[k]) }

  /** The number a string of decimal digits denotes. */
  function DecimalValue(s: string): nat
    requires AllDigits(s)
  {
    if s == [] then 0
    else DecimalValue(s[..|s| - 1]) * 10 + ((s[|s| - 1] as int) - ('0' as int))
  }

  /** Python's `str(n)` for `n >= 0`: decimal digits, most significant first. */
  function Digits(n: nat): (r: string)
    ensures 1 <= |r| && AllDigits(r)
  {
    if n < 10 then [DigitChar(n)] else Digits(n / 10) + [DigitChar(n % 10)]
  }

  /** `Digits` is the decimal representation: it reads back as `n`, without a leading zero. */
  lemma {:induction false} DigitsDecimal(n: nat)
    ensures DecimalValue(Digits(n)) == n
    ensures n > 0 ==> Digits(n)[0] != '0'
  {
    if n >= 10 {
      DigitsDecimal(n / 10);
      var d := Digits(n);
      assert d[..|d| - 1] == Digits(n / 10);
      assert d[0] == Digits(n / 10)[0];
    }
  }

  /** Python's `str(i)` for any integer. */
  function IntStr(i: int): (r: string)
    ensures i >= 0 ==> r == Digits(i)
    ensures i < 0 ==> r == "-" + Digits(-i)
    ensures i >= 0 ==> r != [] && AllDigits(r) && DecimalValue(r) == i && (r[0] == '0' ==> i == 0)
    ensures i < 0 ==> |r| >= 2 && r[0] == '-' && AllDigits(r[1..]) && DecimalValue(r[1..]) == -i && r[1] != '0'
  {
    DigitsDecimal(if i < 0 then -i else i);
    if i < 0 then "-" + Digits(-i) else Digits(i)
  }
}
