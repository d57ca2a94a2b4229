/** Instrument names as the datafeed spells its folders: `_symbol_normalise`. */
module Symbol {
  import opened Common

  /** Whitespace as `str.strip()` removes it, restricted to ASCII:
      space, TAB..CR and the separators U+001C..U+001F. */
  predicate IsSpace(c: char) {
    c == ' ' || ('\U{9}' <= c <= '\U{D}') || ('\U{1C}' <= c <= '\U{1F}')
  }

  /** `str.isalnum()` on ASCII characters. */
  predicate IsAlnum(c: char) {
    ('a' <= c <= 'z') || ('A' <= c <= 'Z') || ('0' <= c <= '9')
  }

  predicate IsUpperAlnum(c: char) {
    ('A' <= c <= 'Z') || ('0' <= c <= '9')
  }

  /** `str.upper()` on one ASCII character. */
  function Upper(c: char): (u: char)
    ensures IsAlnum(c) ==> IsUpperAlnum(u)
    ensures IsUpperAlnum(c) ==> u == c
  {
    if 'a' <= c <= 'z' then (c as int - 32) as char else c
  }

  function TrimLeft(s: string): (r: string)
    ensures r == [] || !IsSpace(r[0])
    ensures forall c :: c in r ==> c in s
  {
    if s != [] && IsSpace(s[0]) then TrimLeft(s[1..]) else s
  }

  function TrimRight(s: string): (r: string)
    ensures r == [] || !IsSpace(r[|r| - 1])
  {
    if s != [] && IsSpace(s[|s| - 1]) then TrimRight(s[..|s| - 1]) else s
  }

  /** `str.strip()`: whitespace removed at both ends. */
  function Strip(s: string): string {
    TrimRight(TrimLeft(s))
  }

  /** The alphanumeric characters of `s`, in order. */
  function KeepAlnum(s: string): (r: string)
    ensures forall c :: c in r ==> IsAlnum(c) && c in s
  {
    if s == [] then []
    else (if IsAlnum(s[0]) then [s[0]] else []) + KeepAlnum(s[1..])
  }

  function UpperAll(s: string): (r: string)
    ensures |r| == |s|
  {
    seq(|s|, i requires 0 <= i < |s| => Upper(s[i]))
  }

  /** `_symbol_normalise`: strip, refuse an empty result, keep the alphanumerics, upper-case. */
  function Normalise(s: string): Result<string> {
    var raw := Strip(s);
    if raw == [] then Err(EmptySymbol)
    else Ok(UpperAll(KeepAlnum(raw)))
  }

  predicate AllSpace(s: string) {
    forall i :: 0 <= i < |s| ==> IsSpace(s[i])
  }

  lemma {:induction false} TrimLeftEmptyIffAllSpace(s: string)
    ensures TrimLeft(s) == [] <==> AllSpace(s)
  {
    if s != [] && IsSpace(s[0]) {
      TrimLeftEmptyIffAllSpace(s[1..]);
      assert AllSpace(s) <==> AllSpace(s[1..]) by {
        assert forall i :: 0 < i < |s| ==> s[i] == s[1..][i - 1];
      }
    }
  }

  lemma {:induction false} TrimRightEmptyIffAllSpace(s: string)
    ensures TrimRight(s) == [] <==> AllSpace(s)
  {
    if s != [] && IsSpace(s[|s| - 1]) {
      TrimRightEmptyIffAllSpace(s[..|s| - 1]);
      assert AllSpace(s) <==> AllSpace(s[..|s| - 1]) by {
        assert forall i :: 0 <= i < |s| - 1 ==> s[i] == s[..|s| - 1][i];
      }
    }
  }

  /** `_symbol_normalise` raises exactly when the input is all whitespace (or empty). */
  lemma NormaliseFailsIffBlank(s: string)
    ensures Normalise(s).Err? <==> AllSpace(s)
    ensures Normalise(s).Err? ==> Normalise(s).error == EmptySymbol
  {
    TrimLeftEmptyIffAllSpace(s);
    var t := TrimLeft(s);
    TrimRightEmptyIffAllSpace(t);
    if t != [] {
      assert !IsSpace(t[0]);
    }
  }

  lemma {:induction false} KeepAlnumAppend(a: string, b: string)
    ensures KeepAlnum(a + b) == KeepAlnum(a) + KeepAlnum(b)
  {
    if a == [] {
      assert a + b == b;
    } else {
      assert (a + b)[1..] == a[1..] + b;
      KeepAlnumAppend(a[1..], b);
    }
  }

  lemma {:induction false} KeepAlnumTrimLeft(s: string)
    ensures KeepAlnum(TrimLeft(s)) == KeepAlnum(s)
  {
    if s != [] && IsSpace(s[0]) {
      KeepAlnumTrimLeft(s[1..]);
    }
  }

  lemma {:induction false} KeepAlnumTrimRight(s: string)
    ensures KeepAlnum(TrimRight(s)) == KeepAlnum(s)
  {
    if s != [] && IsSpace(s[|s| - 1]) {
      var init := s[..|s| - 1];
      KeepAlnumTrimRight(init);
      assert s == init + [s[|s| - 1]];
      KeepAlnumAppend(init, [s[|s| - 1]]);
      assert KeepAlnum([s[|s| - 1]]) == [];
    }
  }

  /** A successful result is the upper-cased alphanumerics of the WHOLE input, in input
      order (stripping never removes an alphanumeric), and contains nothing else. */
  lemma NormaliseKeepsAlnumsInOrder(s: string)
    requires Normalise(s).Ok?
    ensures Normalise(s).value == UpperAll(KeepAlnum(s))
    ensures forall i :: 0 <= i < |Normalise(s).value| ==> IsUpperAlnum(Normalise(s).value[i])
  {
    KeepAlnumTrimLeft(s);
    KeepAlnumTrimRight(TrimLeft(s));
    var k := KeepAlnum(s);
    forall i | 0 <= i < |k|
      ensures IsUpperAlnum(UpperAll(k)[i])
    {
      assert k[i] in k;
    }
  }

  lemma {:induction false} KeepAlnumOfAlnums(s: string)
    requires forall i :: 0 <= i < |s| ==> IsAlnum(s[i])
    ensures KeepAlnum(s) == s
  {
    if s != [] {
      KeepAlnumOfAlnums(s[1..]);
    }
  }

  /** Normalising a non-empty normalised symbol gives it back unchanged. */
  lemma NormaliseIdempotent(s: string)
    requires Normalise(s).Ok? && Normalise(s).value != []
    ensures Normalise(Normalise(s).value) == Normalise(s)
  {
    NormaliseKeepsAlnumsInOrder(s);
    var r := Normalise(s).value;
    assert !IsSpace(r[0]) && !IsSpace(r[|r| - 1]);
    assert TrimLeft(r) == r;
    assert Strip(r) == r;
    KeepAlnumOfAlnums(r);
    assert UpperAll(r) == r;
  }

  /** Separators only: no error, but an empty folder name. */
  lemma SeparatorsOnlyGiveEmptyName()
    ensures Normalise("./") == Ok("")
  {
    assert KeepAlnum("./") == [];
  }

  lemma NormaliseSpelledOut(s: string)
    requires !AllSpace(s)
    ensures Normalise(s) == Ok(UpperAll(KeepAlnum(s)))
  {
    NormaliseFailsIffBlank(s);
    NormaliseKeepsAlnumsInOrder(s);
  }

  lemma NormaliseExampleBlank()
    ensures Normalise("   ") == Err(EmptySymbol)
  {
    NormaliseFailsIffBlank("   ");
  }
}
