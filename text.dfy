/** The Python string methods the hook relies on: `isspace`, `strip`,
    `lower`, `startswith` and `split`. */
module Text {

  /** `c.isspace()` in Python: the ASCII controls 9-13 and 28-31, the space,
      and the Unicode white-space code points. */
  predicate IsSpace(c: char) {
    var n := c as int;
    n == 32 || 9 <= n <= 13 || 28 <= n <= 31 || n == 0x85 || n == 0xA0 || n == 0x1680
    || 0x2000 <= n <= 0x200A || n == 0x2028 || n == 0x2029 || n == 0x202F || n == 0x205F || n == 0x3000
  }

  /** Every character of `s` satisfies `ws`. */
  predicate All(s: string, ws: char -> bool) {
    forall k :: 0 <= k < |s| ==> ws(s[k])
  }

  /** Drops the longest prefix of characters satisfying `ws`. */
  function TrimStart(s: string, ws: char -> bool): (r: string)
    ensures |r| <= |s|
    decreases |s|
  {
    if s != [] && ws(s[0]) then TrimStart(s[1..], ws) else s
  }

  /** `TrimStart` keeps a suffix; what it drops satisfies `ws`, and what it
      keeps does not start with such a character. */
  lemma {:induction false} TrimStartSpec(s: string, ws: char -> bool)
    ensures var r := TrimStart(s, ws);
      && |r| <= |s| && r == s[|s| - |r|..]
      && All(s[..|s| - |r|], ws)
      && (r == [] || !ws(r[0]))
    decreases |s|
  {
    if s != [] && ws(s[0]) {
      TrimStartSpec(s[1..], ws);
      var r := TrimStart(s, ws);
      var i := |s| - |r|;
      forall k | 0 <= k < i ensures ws(s[..i][k]) {
        if k > 0 {
          assert s[..i][k] == s[1..][..i - 1][k - 1];
        }
      }
    }
  }

  /** Drops the longest suffix of characters satisfying `ws`. */
  function TrimEnd(s: string, ws: char -> bool): (r: string)
    ensures |r| <= |s|
    decreases |s|
  {
    if s != [] && ws(s[|s| - 1]) then TrimEnd(s[..|s| - 1], ws) else s
  }

  /** `TrimEnd` keeps a prefix; what it drops satisfies `ws`, and what it
      keeps does not end with such a character. */
  lemma {:induction false} TrimEndSpec(s: string, ws: char -> bool)
    ensures var r := TrimEnd(s, ws);
      && |r| <= |s| && r == s[..|r|]
      && All(s[|r|..], ws)
      && (r == [] || !ws(r[|r| - 1]))
    decreases |s|
  {
    if s != [] && ws(s[|s| - 1]) {
      var p := s[..|s| - 1];
      TrimEndSpec(p, ws);
      var r := TrimEnd(s, ws);
      assert r == s[..|r|] by {
        assert p[..|r|] == s[..|r|];
      }
      forall k | 0 <= k < |s| - |r| ensures ws(s[|r|..][k]) {
        if |r| + k < |p| {
          assert s[|r|..][k] == p[|r|..][k];
        }
      }
    }
  }

  /** Removes the characters satisfying `ws` from both ends. */
  function Trim(s: string, ws: char -> bool): (r: string)
    ensures |r| <= |s|
  {
    TrimEnd(TrimStart(s, ws), ws)
  }

  /** What `Trim` keeps is a slice of `s` with only trimmable characters
      around it, it has no trimmable character at either end, and it is
      empty exactly when every character is trimmable. */
  lemma TrimIsSlice(s: string, ws: char -> bool)
    ensures var r, i := Trim(s, ws), |s| - |TrimStart(s, ws)|;
      && i + |r| <= |s| && r == s[i..i + |r|] && All(s[..i], ws) && All(s[i + |r|..], ws)
      && (r == [] || (!ws(r[0]) && !ws(r[|r| - 1])))
    ensures Trim(s, ws) == [] <==> All(s, ws)
  {
    var a := TrimStart(s, ws);
    var r := TrimEnd(a, ws);
    var i := |s| - |a|;
    TrimStartSpec(s, ws);
    TrimEndSpec(a, ws);
    assert r == s[i..i + |r|];
    assert s[i + |r|..] == a[|r|..];
    if r == [] {
      assert a == [] && s[..i] == s;
    } else {
      assert r[0] == a[0] && s[i] == r[0];
    }
  }

  /** `s.strip()`. */
  function Strip(s: string): string {
    Trim(s, IsSpace)
  }

  /** Trimming leaves text that already has no trimmable character at either
      end as it is. */
  lemma {:induction false} TrimNoop(s: string, ws: char -> bool)
    requires s == [] || (!ws(s[0]) && !ws(s[|s| - 1]))
    ensures Trim(s, ws) == s
  {
    assert TrimStart(s, ws) == s;
    assert TrimEnd(s, ws) == s;
  }

  /** Stripping twice is stripping once. */
  lemma StripIdempotent(s: string)
    ensures Strip(Strip(s)) == Strip(s)
  {
    TrimIsSlice(s, IsSpace);
    TrimNoop(Strip(s), IsSpace);
  }

  /** `c.lower()` for ASCII letters; other characters are left alone. */
  function LowerChar(c: char): char {
    if 'A' <= c <= 'Z' then (c as int + 32) as char else c
  }

  /** The upper-case partner of a lower-case ASCII letter. */
  function UpperChar(c: char): char {
    if 'a' <= c <= 'z' then (c as int - 32) as char else c
  }

  /** `s.lower()`, restricted to ASCII case mapping. */
  function Lower(s: string): string {
    seq(|s|, i requires 0 <= i < |s| => LowerChar(s[i]))
  }

  /** `s.startswith(p)`. */
  predicate StartsWith(s: string, p: string) {
    |p| <= |s| && s[..|p|] == p
  }

  /** `sep.join(parts)`. */
  function Join(parts: seq<string>, sep: char): string
    decreases |parts|
  {
    if parts == [] then []
    else if |parts| == 1 then parts[0]
    else parts[0] + [sep] + Join(parts[1..], sep)
  }

  /** `s.split(sep)` for a one-character separator: the pieces between
      separators, empty pieces included. */
  function Split(s: string, sep: char): (parts: seq<string>)
    ensures |parts| >= 1
    decreases |s|
  {
    if s == [] then [[]]
    else
      var rest := Split(s[1..], sep);
      if s[0] == sep then [[]] + rest
      else [[s[0]] + rest[0]] + rest[1..]
  }

  /** The pieces hold no separator, and joining them back with the
      separator gives the text. */
  lemma {:induction false} SplitJoin(s: string, sep: char)
    ensures forall i :: 0 <= i < |Split(s, sep)| ==> sep !in Split(s, sep)[i]
    ensures Join(Split(s, sep), sep) == s
    decreases |s|
  {
    if s != [] {
      SplitJoin(s[1..], sep);
      var rest := Split(s[1..], sep);
      if s[0] == sep {
        assert [sep] + s[1..] == s;
      } else {
        assert [s[0]] + s[1..] == s;
        if |rest| > 1 {
          assert rest == [rest[0]] + rest[1..];
        }
      }
    }
  }

  /** Text holding no separator is a single piece. */
  lemma {:induction false} SplitNoSeparator(s: string, sep: char)
    requires sep !in s
    ensures Split(s, sep) == [s]
    decreases |s|
  {
    if s != [] {
      SplitNoSeparator(s[1..], sep);
      assert [s[0]] + s[1..] == s;
    }
  }

  /** A separator-free prefix followed by a separator becomes the first piece. */
  lemma {:induction false} SplitAfterPiece(a: string, t: string, sep: char)
    requires sep !in a
    ensures Split(a + [sep] + t, sep) == [a] + Split(t, sep)
    decreases |a|
  {
    var s := a + [sep] + t;
    if a == [] {
      assert s[1..] == t;
    } else {
      assert s[1..] == a[1..] + [sep] + t;
      SplitAfterPiece(a[1..], t, sep);
      assert [a[0]] + a[1..] == a;
    }
  }

  /** `Split` is the only way to cut a text into separator-free pieces that
      join back to it. */
  lemma {:induction false} SplitUnique(parts: seq<string>, sep: char)
    requires |parts| >= 1
    requires forall i :: 0 <= i < |parts| ==> sep !in parts[i]
    ensures Split(Join(parts, sep), sep) == parts
    decreases |parts|
  {
    if |parts| == 1 {
      SplitNoSeparator(parts[0], sep);
    } else {
      SplitUnique(parts[1..], sep);
      SplitAfterPiece(parts[0], Join(parts[1..], sep), sep);
      assert parts == [parts[0]] + parts[1..];
    }
  }
}
