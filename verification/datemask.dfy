/** The contact form's date-input mask: keep digits, at most eight, and lay
    them out as DD/MM/YYYY while typing. */
module DateMask {

  const MaxDigits: nat := 8

  /** `\d` in a JavaScript regular expression without the `u` flag. */
  predicate IsDigit(c: char) {
    '0' <= c <= '9'
  }

  predicate AllDigits(s: string) {
    forall i :: 0 <= i < |s| ==> IsDigit(s[i])
  }

  /** `value.replace(/\D/g, '')`: the digits of `s`, in order. */
  function Digits(s: string): (d: string)
    ensures |d| <= |s|
    ensures AllDigits(d)
  {
    if |s| == 0 then ""
    else if IsDigit(s[0]) then [s[0]] + Digits(s[1..])
    else Digits(s[1..])
  }

  /** At most the first eight digits. */
  function Truncate(digits: string): (v: string)
    ensures |v| <= MaxDigits
  {
    if |digits| > MaxDigits then digits[..MaxDigits] else digits
  }

  /** Slash insertion for a value of at most eight digits. */
  function Layout(v: string): string {
    if |v| >= 5 then v[..2] + "/" + v[2..4] + "/" + v[4..]
    else if |v| >= 3 then v[..2] + "/" + v[2..]
    else v
  }

  /** The input handler: the field's new value for whatever was typed. */
  function Mask(input: string): (r: string)
    ensures forall i :: 0 <= i < |r| ==> IsDigit(r[i]) || r[i] == '/'
    ensures |r| <= MaxDigits + 2
    ensures Digits(r) == Truncate(Digits(input))
  {
    var v := Truncate(Digits(input));
    LayoutKeepsDigits(v);
    Layout(v)
  }

  lemma {:induction false} DigitsAppend(a: string, b: string)
    ensures Digits(a + b) == Digits(a) + Digits(b)
  {
    if |a| == 0 {
      assert a + b == b;
    } else {
      assert (a + b)[1..] == a[1..] + b;
      DigitsAppend(a[1..], b);
    }
  }

  lemma {:induction false} DigitsOfDigits(s: string)
    requires AllDigits(s)
    ensures Digits(s) == s
  {
    if |s| > 0 {
      DigitsOfDigits(s[1..]);
      assert [s[0]] + s[1..] == s;
    }
  }

  /** Dropping the slashes from a laid-out value gives the value back. */
  lemma LayoutKeepsDigits(v: string)
    requires AllDigits(v)
    ensures Digits(Layout(v)) == v
    ensures forall i :: 0 <= i < |Layout(v)| ==> IsDigit(Layout(v)[i]) || Layout(v)[i] == '/'
  {
    assert Digits("/") == "";
    if |v| >= 5 {
      DigitsAppend(v[..2] + "/" + v[2..4] + "/", v[4..]);
      DigitsAppend(v[..2] + "/" + v[2..4], "/");
      DigitsAppend(v[..2] + "/", v[2..4]);
      DigitsAppend(v[..2], "/");
      DigitsOfDigits(v[..2]);
      DigitsOfDigits(v[2..4]);
      DigitsOfDigits(v[4..]);
      assert v[..2] + v[2..4] + v[4..] == v;
    } else if |v| >= 3 {
      DigitsAppend(v[..2] + "/", v[2..]);
      DigitsAppend(v[..2], "/");
      DigitsOfDigits(v[..2]);
      DigitsOfDigits(v[2..]);
      assert v[..2] + v[2..] == v;
    } else {
      DigitsOfDigits(v);
    }
  }

  /** Five to eight digits: slashes at indices 2 and 5. */
  lemma LayoutLong(v: string)
    requires AllDigits(v) && |v| >= 5
    ensures |Layout(v)| == |v| + 2
    ensures forall i :: 0 <= i < |Layout(v)| ==> (Layout(v)[i] == '/' <==> i == 2 || i == 5)
  {
    var r := Layout(v);
    forall i | 0 <= i < |r|
      ensures r[i] == '/' <==> i == 2 || i == 5
    {
      if i < 2 {
        assert r[i] == v[i];
      } else if 2 < i < 5 {
        assert r[i] == v[i - 1];
      } else if i > 5 {
        assert r[i] == v[i - 2];
      }
    }
  }

  /** Three or four digits: one slash, at index 2. */
  lemma LayoutMiddle(v: string)
    requires AllDigits(v) && 3 <= |v| < 5
    ensures |Layout(v)| == |v| + 1
    ensures forall i :: 0 <= i < |Layout(v)| ==> (Layout(v)[i] == '/' <==> i == 2)
  {
    var r := Layout(v);
    forall i | 0 <= i < |r|
      ensures r[i] == '/' <==> i == 2
    {
      if i < 2 {
        assert r[i] == v[i];
      } else if i > 2 {
        assert r[i] == v[i - 1];
      }
    }
  }

  /** Where the slashes go: none for up to two digits, one at index 2 for
      three or four, and at indices 2 and 5 for five to eight. */
  lemma MaskLayout(input: string)
    ensures var n := |Truncate(Digits(input))|;
      var r := Mask(input);
      && n == (if |Digits(input)| < MaxDigits then |Digits(input)| else MaxDigits)
      && |r| == n + (if n >= 5 then 2 else if n >= 3 then 1 else 0)
      && forall i :: 0 <= i < |r| ==> (r[i] == '/' <==> (i == 2 && n >= 3) || (i == 5 && n >= 5))
  {
    var v := Truncate(Digits(input));
    if |v| >= 5 {
      LayoutLong(v);
    } else if |v| >= 3 {
      LayoutMiddle(v);
    }
  }

  /** Masking an already masked value changes nothing. */
  lemma MaskIdempotent(input: string)
    ensures Mask(Mask(input)) == Mask(input)
  {
    var v := Truncate(Digits(input));
    LayoutKeepsDigits(v);
    assert Digits(Mask(input)) == v;
  }

  /** The mask depends on the typed text only through its digits. */
  lemma MaskSeesOnlyDigits(input: string)
    ensures Mask(input) == Mask(Digits(input))
  {
    DigitsOfDigits(Digits(input));
  }
}
