/** Small shared vocabulary: optional values, decimal text, and cutting text at a separator. */
module Common {

  datatype Option<+T> = None | Some(value: T)

  // ---------------------------------------------------------------------
  // Decimal text
  // ---------------------------------------------------------------------

  predicate IsDigit(c: char) { '0' <= c <= '9' }

  /** `[a-z0-9_]`. */
  predicate IsWordChar(c: char): (r: bool)
    ensures r <==> 97 <= c as int <= 122 || 48 <= c as int <= 57 || c as int == 95
  {
    'a' <= c <= 'z' || '0' <= c <= '9' || c == '_'
  }

  /** `toUpperCase` on one ASCII character. */
  function UpperChar(c: char): (r: char)
    ensures 97 <= c as int <= 122 ==> r as int == c as int - 32
    ensures !(97 <= c as int <= 122) ==> r == c
  {
    if 'a' <= c <= 'z' then (c as int - 32) as char else c
  }

  function Upper(s: string): (r: string)
    ensures |r| == |s| && forall i :: 0 <= i < |s| ==> r[i] == UpperChar(s[i])
  {
    if s == [] then [] else [UpperChar(s[0])] + Upper(s[1..])
  }

  predicate AllDigits(s: string) { forall i :: 0 <= i < |s| ==> IsDigit(s[i]) }

  function DigitValue(c: char): nat
    requires IsDigit(c)
  {
    c as int - '0' as int
  }

  function DigitChar(d: nat): (c: char)
    requires d < 10
    ensures IsDigit(c) && DigitValue(c) == d
  {
    ('0' as int + d) as char
  }

  /** The decimal text of a natural number, as a JavaScript template prints it. */
  function NatText(n: nat): (s: string)
    ensures s != [] && AllDigits(s)
  {
    if n < 10 then [DigitChar(n)] else NatText(n / 10) + [DigitChar(n % 10)]
  }

  /** The number a digit string denotes, leading zeros allowed. */
  function TextNat(s: string): nat
    requires AllDigits(s)
  {
    if s == [] then 0 else TextNat(s[..|s| - 1]) * 10 + DigitValue(s[|s| - 1])
  }

  lemma {:induction false} NatTextRoundTrip(n: nat)
    ensures TextNat(NatText(n)) == n
  {
    if n < 10 {
      assert NatText(n)[..0] == [];
    } else {
      NatTextRoundTrip(n / 10);
      var s := NatText(n);
      assert s[..|s| - 1] == NatText(n / 10);
    }
  }

  /** A digit string without superfluous leading zeros. */
  predicate Canonical(s: string) {
    AllDigits(s) && s != [] && (s[0] == '0' ==> |s| == 1)
  }

  function DropZeros(s: string): (r: string)
    requires AllDigits(s) && s != []
    ensures AllDigits(r) && r != []
  {
    if s[0] == '0' && |s| > 1 then DropZeros(s[1..]) else s
  }

  lemma {:induction false} CanonicalTextRoundTrip(s: string)
    requires Canonical(s)
    ensures NatText(TextNat(s)) == s
    ensures |s| > 1 ==> TextNat(s) >= 10
    decreases |s|
  {
    if |s| == 1 {
      assert s[..0] == [];
    } else {
      var t := s[..|s| - 1];
      assert t[0] == s[0];
      CanonicalTextRoundTrip(t);
      if |t| == 1 {
        assert t[..0] == [];
        assert TextNat(t) >= 1;
      }
      assert s == t + [s[|s| - 1]];
    }
  }

  lemma {:induction false} DropZerosKeepsValue(s: string)
    requires AllDigits(s) && s != []
    ensures Canonical(DropZeros(s)) && TextNat(DropZeros(s)) == TextNat(s)
    decreases |s|
  {
    if s[0] == '0' && |s| > 1 {
      DropZerosKeepsValue(s[1..]);
      LeadingZero(s[1..]);
      assert s == ['0'] + s[1..];
    }
  }

  lemma {:induction false} LeadingZero(s: string)
    requires AllDigits(s)
    ensures TextNat(['0'] + s) == TextNat(s)
    decreases |s|
  {
    var z := ['0'] + s;
    if s == [] {
      assert z[..0] == [];
    } else {
      assert z[..|z| - 1] == ['0'] + s[..|s| - 1];
      LeadingZero(s[..|s| - 1]);
    }
  }

  /** Integers print with a leading minus sign when negative. */
  function IntText(n: int): string {
    if n < 0 then "-" + NatText(-n) else NatText(n)
  }

  lemma IntTextInjective(m: int, n: int)
    requires IntText(m) == IntText(n)
    ensures m == n
  {
    assert (m < 0) == !IsDigit(IntText(m)[0]);
    assert (n < 0) == !IsDigit(IntText(n)[0]);
    if m < 0 && n < 0 {
      assert IntText(m)[1..] == NatText(-m) && IntText(n)[1..] == NatText(-n);
      NatTextRoundTrip(-m);
      NatTextRoundTrip(-n);
    } else if m >= 0 && n >= 0 {
      NatTextRoundTrip(m);
      NatTextRoundTrip(n);
    }
  }

  // ---------------------------------------------------------------------
  // Cutting at a separator
  // ---------------------------------------------------------------------

  /** Cuts at the first `c`. */
  function CutFirst(s: string, c: char): (r: Option<(string, string)>)
    ensures r.Some? <==> c in s
    ensures r.Some? ==> s == r.value.0 + [c] + r.value.1 && c !in r.value.0
  {
    if s == [] then None
    else if s[0] == c then
      assert s == [] + [c] + s[1..];
      Some(([], s[1..]))
    else
      match CutFirst(s[1..], c)
      case None => None
      case Some((h, t)) =>
        assert s == [s[0]] + s[1..];
        assert [s[0]] + (h + [c] + t) == ([s[0]] + h) + [c] + t;
        Some(([s[0]] + h, t))
  }

  /** Cuts at the last `c`. */
  function CutLast(s: string, c: char): (r: Option<(string, string)>)
    ensures r.Some? <==> c in s
    ensures r.Some? ==> s == r.value.0 + [c] + r.value.1 && c !in r.value.1
  {
    if s == [] then None
    else
      var n := |s| - 1;
      if s[n] == c then
        assert s == s[..n] + [c] + [];
        Some((s[..n], []))
      else
        match CutLast(s[..n], c)
        case None => None
        case Some((h, t)) =>
          assert s == s[..n] + [s[n]];
          assert (h + [c] + t) + [s[n]] == h + [c] + (t + [s[n]]);
          Some((h, t + [s[n]]))
  }

  lemma CutFirstUnique(h: string, c: char, t: string)
    requires c !in h
    ensures CutFirst(h + [c] + t, c) == Some((h, t))
  {
    var s := h + [c] + t;
    assert s[|h|] == c;
    var r := CutFirst(s, c).value;
    SameCut(h, t, r.0, r.1, c);
  }

  lemma CutLastUnique(h: string, c: char, t: string)
    requires c !in t
    ensures CutLast(h + [c] + t, c) == Some((h, t))
  {
    var s := h + [c] + t;
    assert s[|h|] == c;
    var r := CutLast(s, c).value;
    SameCutLast(h, t, r.0, r.1, c);
  }

  lemma SameCutLast(h: string, t: string, h': string, t': string, c: char)
    requires c !in t && c !in t'
    requires h + [c] + t == h' + [c] + t'
    ensures h == h' && t == t'
  {
    var s := h + [c] + t;
    assert s[|h|] == c && s[|h'|] == c;
    assert forall i :: |h| < i < |s| ==> s[i] == t[i - |h| - 1];
    assert forall i :: |h'| < i < |s| ==> s[i] == t'[i - |h'| - 1];
    assert |h| == |h'|;
    assert h == s[..|h|] == h';
    assert t == s[|h| + 1..] == t';
  }

  lemma SameCut(h: string, t: string, h': string, t': string, c: char)
    requires c !in h && c !in h'
    requires h + [c] + t == h' + [c] + t'
    ensures h == h' && t == t'
  {
    var s := h + [c] + t;
    assert s[|h|] == c && s[|h'|] == c;
    assert forall i :: 0 <= i < |h| ==> s[i] == h[i];
    assert forall i :: 0 <= i < |h'| ==> s[i] == h'[i];
    assert |h| == |h'|;
    assert h == s[..|h|] == h';
    assert t == s[|h| + 1..] == t';
  }

  /** `join(':')`. */
  function Joined(parts: seq<string>): string
    requires parts != []
  {
    if |parts| == 1 then parts[0] else parts[0] + [':'] + Joined(parts[1..])
  }

  // ---------------------------------------------------------------------
  // Trimming
  // ---------------------------------------------------------------------

  /** White space and line terminators of ECMAScript. */
  predicate IsSpace(c: char) {
    var n := c as int;
    || 9 <= n <= 13 || n == 32 || n == 0xA0 || n == 0x1680 || 0x2000 <= n <= 0x200A
    || n == 0x2028 || n == 0x2029 || n == 0x202F || n == 0x205F || n == 0x3000 || n == 0xFEFF
  }

  predicate AllSpace(s: string) { forall i :: 0 <= i < |s| ==> IsSpace(s[i]) }

  function TrimStart(s: string): string {
    if s != [] && IsSpace(s[0]) then TrimStart(s[1..]) else s
  }

  function TrimEnd(s: string): string {
    if s != [] && IsSpace(s[|s| - 1]) then TrimEnd(s[..|s| - 1]) else s
  }

  function Trim(s: string): string { TrimEnd(TrimStart(s)) }

  lemma {:induction false} TrimStartPadded(pad: string, s: string)
    requires AllSpace(pad) && s != [] && !IsSpace(s[0])
    ensures TrimStart(pad + s) == s
  {
    if pad == [] {
      assert pad + s == s;
    } else {
      assert (pad + s)[1..] == pad[1..] + s;
      TrimStartPadded(pad[1..], s);
    }
  }

  lemma {:induction false} TrimEndPadded(s: string, pad: string)
    requires AllSpace(pad) && s != [] && !IsSpace(s[|s| - 1])
    ensures TrimEnd(s + pad) == s
  {
    if pad == [] {
      assert s + pad == s;
    } else {
      assert (s + pad)[..|s + pad| - 1] == s + pad[..|pad| - 1];
      TrimEndPadded(s, pad[..|pad| - 1]);
    }
  }

  lemma TrimPadded(before: string, s: string, after: string)
    requires AllSpace(before) && AllSpace(after) && s != [] && !IsSpace(s[0]) && !IsSpace(s[|s| - 1])
    ensures Trim(before + s + after) == s
  {
    assert before + s + after == before + (s + after);
    TrimStartPadded(before, s + after);
    TrimEndPadded(s, after);
  }
}
