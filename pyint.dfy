/** Python's `int()` applied to a string, in base 10: optional white space,
    an optional sign, decimal digits that single underscores may separate,
    optional white space.  Anything else is a `ValueError`, here `None`. */
module PyInt {
  import opened Values
  import opened Text

  /** The white space `int()` skips around the number.  CPython turns every
      non-ASCII white-space character into a space first, but of the ASCII
      ones it only skips 9-13 and the space: the separators 28-31, which
      `str.strip` does remove, make `int()` fail. */
  predicate IntSpace(c: char) {
    IsSpace(c) && !(28 <= c as int <= 31)
  }

  predicate IsDigit(c: char) {
    '0' <= c <= '9'
  }

  /** Digits and underscores only. */
  predicate DigitsOrUnderscores(b: string) {
    forall i :: 0 <= i < |b| ==> IsDigit(b[i]) || b[i] == '_'
  }

  /** A non-empty run of digits in which an underscore may only stand
      between two digits. */
  predicate DigitRun(b: string) {
    && |b| > 0
    && IsDigit(b[0])
    && DigitsOrUnderscores(b)
    && forall i :: 0 <= i < |b| && b[i] == '_' ==> i + 1 < |b| && IsDigit(b[i + 1])
  }

  /** The number a digit run denotes, underscores ignored. */
  function DigitsValue(b: string): nat
    requires DigitsOrUnderscores(b)
    decreases |b|
  {
    if b == [] then 0
    else
      var c := b[|b| - 1];
      if c == '_' then DigitsValue(b[..|b| - 1])
      else DigitsValue(b[..|b| - 1]) * 10 + (c as int - '0' as int)
  }

  /** `int(s)`: `None` stands for the `ValueError` it raises. */
  function Parse(s: string): Option<int> {
    var t := Trim(s, IntSpace);
    var signed := |t| > 0 && (t[0] == '+' || t[0] == '-');
    var body := if signed then t[1..] else t;
    if DigitRun(body) then
      var n: int := DigitsValue(body);
      Some(if signed && t[0] == '-' then -n else n)
    else None
  }

  /** Only digits, underscores, signs and white space can occur in a text
      `int()` accepts. */
  lemma ParseAlphabet(s: string)
    requires Parse(s).Some?
    ensures forall i :: 0 <= i < |s| ==> IsDigit(s[i]) || s[i] == '_' || s[i] == '+' || s[i] == '-' || IntSpace(s[i])
  {
    var t := Trim(s, IntSpace);
    TrimIsSlice(s, IntSpace);
    var j := |s| - |TrimStart(s, IntSpace)|;
    forall i | 0 <= i < |s|
      ensures IsDigit(s[i]) || s[i] == '_' || s[i] == '+' || s[i] == '-' || IntSpace(s[i])
    {
      if i < j {
        assert s[i] == s[..j][i];
      } else if i >= j + |t| {
        assert s[i] == s[j + |t|..][i - j - |t|];
      } else {
        assert s[i] == t[i - j];
        if i > j {
          var signed := |t| > 0 && (t[0] == '+' || t[0] == '-');
          var body := if signed then t[1..] else t;
          assert DigitsOrUnderscores(body);
          if signed {
            assert t[i - j] == body[i - j - 1];
          } else {
            assert t[i - j] == body[i - j];
          }
        }
      }
    }
  }

  function DigitChar(d: nat): char
    requires d < 10
  {
    ('0' as int + d) as char
  }

  /** `str(n)` for a natural number. */
  function ShowNat(n: nat): (r: string)
    ensures |r| > 0 && forall i :: 0 <= i < |r| ==> IsDigit(r[i])
  {
    if n < 10 then [DigitChar(n)] else ShowNat(n / 10) + [DigitChar(n % 10)]
  }

  /** `str(n)`. */
  function Show(n: int): string {
    if n < 0 then "-" + ShowNat(-n) else ShowNat(n)
  }

  lemma {:induction false} ShowNatValue(n: nat)
    ensures DigitsValue(ShowNat(n)) == n
  {
    if n >= 10 {
      ShowNatValue(n / 10);
      var b := ShowNat(n);
      assert b[..|b| - 1] == ShowNat(n / 10);
    }
  }

  /** `int(str(n)) == n` for every integer. */
  lemma {:induction false} ParseShow(n: int)
    ensures Parse(Show(n)) == Some(n)
  {
    var s := Show(n);
    var m := if n < 0 then -n else n;
    ShowNatValue(m);
    TrimNoop(s, IntSpace);
    if n < 0 {
      assert s[1..] == ShowNat(m);
    }
  }

  /** `int()` rejects every text that holds a character other than a
      digit, an underscore, a sign or white space, such as a comma or a
      letter. */
  lemma ParseRejectsChar(s: string, c: char)
    requires c in s
    requires !IsDigit(c) && c != '_' && c != '+' && c != '-' && !IntSpace(c)
    ensures Parse(s) == None
  {
    if Parse(s).Some? {
      ParseAlphabet(s);
    }
  }
}
