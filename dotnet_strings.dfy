/**
 * The .NET string operations the URL helpers rely on, on `string` (a
 * sequence of characters): `Replace(char, char)`, `TrimEnd(char)`,
 * `TrimStart(char)`, `StartsWith(string)` (ordinal) and `ToLower()`
 * (restricted to ASCII letters).
 */
module DotNetStrings {

  function ReplaceChar(x: char, from: char, to: char): char {
    if x == from then to else x
  }

  /** `s.Replace(from, to)`: every occurrence of `from` becomes `to`. */
  function Replace(s: string, from: char, to: char): (r: string)
    ensures |r| == |s|
  {
    if s == [] then [] else [ReplaceChar(s[0], from, to)] + Replace(s[1..], from, to)
  }

  /** A string of `n` copies of `c`. */
  function Repeat(c: char, n: nat): (r: string)
    ensures |r| == n
  {
    if n == 0 then [] else [c] + Repeat(c, n - 1)
  }

  /** `s.TrimEnd(c)`: `s` without all of its trailing `c`s. */
  function TrimEnd(s: string, c: char): (r: string)
    ensures r <= s
    ensures r == [] || r[|r| - 1] != c
    decreases |s|
  {
    if s != [] && s[|s| - 1] == c then TrimEnd(s[..|s| - 1], c) else s
  }

  /** `s.TrimStart(c)`: `s` without all of its leading `c`s. */
  function TrimStart(s: string, c: char): (r: string)
    ensures |r| <= |s|
    ensures r == [] || r[0] != c
  {
    if s != [] && s[0] == c then TrimStart(s[1..], c) else s
  }

  /** `s.StartsWith(prefix)` with ordinal (code unit by code unit) comparison. */
  predicate StartsWith(s: string, prefix: string) {
    prefix <= s
  }

  predicate IsAsciiUpper(c: char) {
    'A' <= c <= 'Z'
  }

  function ToLowerChar(c: char): (r: char)
    ensures !IsAsciiUpper(r)
    ensures IsAsciiUpper(c) ==> r as int == c as int + 32
    ensures !IsAsciiUpper(c) ==> r == c
  {
    if IsAsciiUpper(c) then (c as int + 32) as char else c
  }

  /** `s.ToLower()`, folding only the ASCII letters A-Z. */
  function ToLower(s: string): (r: string)
    ensures |r| == |s|
  {
    if s == [] then [] else [ToLowerChar(s[0])] + ToLower(s[1..])
  }

  /** `Replace` works character by character. */
  lemma {:induction false} ReplaceAt(s: string, from: char, to: char, i: nat)
    requires i < |s|
    ensures Replace(s, from, to)[i] == ReplaceChar(s[i], from, to)
  {
    if i > 0 {
      ReplaceAt(s[1..], from, to, i - 1);
    }
  }

  /** Replacing characters commutes with concatenation. */
  lemma {:induction false} ReplaceConcat(a: string, b: string, from: char, to: char)
    ensures Replace(a + b, from, to) == Replace(a, from, to) + Replace(b, from, to)
  {
    if a == [] {
      assert a + b == b;
    } else {
      assert (a + b)[1..] == a[1..] + b;
      ReplaceConcat(a[1..], b, from, to);
      var head := [ReplaceChar(a[0], from, to)];
      assert head + (Replace(a[1..], from, to) + Replace(b, from, to))
          == head + Replace(a[1..], from, to) + Replace(b, from, to);
    }
  }

  /** Replacing characters by `to` leaves a `to` between two strings in place. */
  lemma ReplaceAround(a: string, b: string, from: char, to: char)
    ensures Replace(a + [to] + b, from, to) == Replace(a, from, to) + [to] + Replace(b, from, to)
  {
    ReplaceConcat(a + [to], b, from, to);
    ReplaceConcat(a, [to], from, to);
    assert Replace([to], from, to) == [to];
  }

  /** A string without `from` is left unchanged by replacing `from`. */
  lemma {:induction false} ReplaceAbsent(s: string, from: char, to: char)
    requires from !in s
    ensures Replace(s, from, to) == s
  {
    if s != [] {
      assert from !in s[1..] by {
        assert forall x :: x in s[1..] ==> x in s;
      }
      ReplaceAbsent(s[1..], from, to);
      assert s == [s[0]] + s[1..];
    }
  }

  /** After replacing `from` by a different `to`, no `from` is left. */
  lemma {:induction false} ReplaceRemoves(s: string, from: char, to: char)
    requires from != to
    ensures from !in Replace(s, from, to)
  {
    if s != [] {
      ReplaceRemoves(s[1..], from, to);
    }
  }

  /** A run of `c`s holds nothing but `c`. */
  lemma {:induction false} RepeatOnly(c: char, n: nat, d: char)
    requires d != c
    ensures d !in Repeat(c, n)
  {
    if n > 0 {
      RepeatOnly(c, n - 1, d);
    }
  }

  /** One more copy of `c` can be put at the end as well as at the start. */
  lemma {:induction false} RepeatSnoc(c: char, n: nat)
    ensures Repeat(c, n + 1) == Repeat(c, n) + [c]
  {
    if n > 0 {
      RepeatSnoc(c, n - 1);
      assert [c] + (Repeat(c, n - 1) + [c]) == [c] + Repeat(c, n - 1) + [c];
    }
  }

  /** What `TrimEnd` removes is a run of `c`s. */
  lemma {:induction false} TrimEndRemovesRun(s: string, c: char)
    ensures s == TrimEnd(s, c) + Repeat(c, |s| - |TrimEnd(s, c)|)
    decreases |s|
  {
    if s != [] && s[|s| - 1] == c {
      var init := s[..|s| - 1];
      TrimEndRemovesRun(init, c);
      var r := TrimEnd(init, c);
      RepeatSnoc(c, |init| - |r|);
      assert s == init + [c];
      assert r + Repeat(c, |init| - |r|) + [c] == r + (Repeat(c, |init| - |r|) + [c]);
    } else {
      assert s + [] == s;
    }
  }

  /** What `TrimStart` removes is a run of `c`s. */
  lemma {:induction false} TrimStartRemovesRun(s: string, c: char)
    ensures s == Repeat(c, |s| - |TrimStart(s, c)|) + TrimStart(s, c)
  {
    if s != [] && s[0] == c {
      TrimStartRemovesRun(s[1..], c);
      var r := TrimStart(s[1..], c);
      var run := Repeat(c, |s| - 1 - |r|);
      calc {
        s;
        [c] + s[1..];
        [c] + (run + r);
        ([c] + run) + r;
        Repeat(c, |s| - |r|) + r;
      }
    } else {
      assert [] + s == s;
    }
  }

  /** Trailing `c`s do not survive `TrimEnd`, however many there are. */
  lemma {:induction false} TrimEndIgnoresTrailing(s: string, c: char, n: nat)
    ensures TrimEnd(s + Repeat(c, n), c) == TrimEnd(s, c)
  {
    if n > 0 {
      var init := s + Repeat(c, n - 1);
      calc {
        TrimEnd(s + Repeat(c, n), c);
        { RepeatSnoc(c, n - 1); assert s + Repeat(c, n) == init + [c]; }
        TrimEnd(init + [c], c);
        { assert (init + [c])[..|init|] == init; }
        TrimEnd(init, c);
        { TrimEndIgnoresTrailing(s, c, n - 1); }
        TrimEnd(s, c);
      }
    } else {
      assert s + Repeat(c, n) == s;
    }
  }

  /** Leading `c`s do not survive `TrimStart`, however many there are. */
  lemma {:induction false} TrimStartIgnoresLeading(s: string, c: char, n: nat)
    ensures TrimStart(Repeat(c, n) + s, c) == TrimStart(s, c)
  {
    if n > 0 {
      var rest := Repeat(c, n - 1) + s;
      calc {
        TrimStart(Repeat(c, n) + s, c);
        { assert Repeat(c, n) + s == [c] + rest; }
        TrimStart([c] + rest, c);
        { assert ([c] + rest)[1..] == rest; }
        TrimStart(rest, c);
        { TrimStartIgnoresLeading(s, c, n - 1); }
        TrimStart(s, c);
      }
    } else {
      assert Repeat(c, n) + s == s;
    }
  }

  /** Once a character other than `c` is reached, what follows is kept as it is. */
  lemma {:induction false} TrimStartConcat(x: string, y: string, c: char)
    requires TrimStart(x, c) != []
    ensures TrimStart(x + y, c) == TrimStart(x, c) + y
  {
    if x[0] == c {
      assert (x + y)[1..] == x[1..] + y;
      TrimStartConcat(x[1..], y, c);
    }
  }

  /** `TrimStart` keeps a last character that is not `c`. */
  lemma {:induction false} TrimStartKeepsLast(s: string, c: char)
    requires s != [] && s[|s| - 1] != c
    ensures var r := TrimStart(s, c); r != [] && r[|r| - 1] == s[|s| - 1]
  {
    if s[0] == c {
      TrimStartKeepsLast(s[1..], c);
    }
  }

  /** Lower-casing commutes with concatenation. */
  lemma {:induction false} ToLowerConcat(a: string, b: string)
    ensures ToLower(a + b) == ToLower(a) + ToLower(b)
  {
    if a == [] {
      assert a + b == b;
    } else {
      assert (a + b)[1..] == a[1..] + b;
      ToLowerConcat(a[1..], b);
      var head := [ToLowerChar(a[0])];
      assert head + (ToLower(a[1..]) + ToLower(b)) == head + ToLower(a[1..]) + ToLower(b);
    }
  }

  /** Lower-casing works character by character. */
  lemma {:induction false} ToLowerAt(s: string, i: nat)
    requires i < |s|
    ensures ToLower(s)[i] == ToLowerChar(s[i])
  {
    if i > 0 {
      ToLowerAt(s[1..], i - 1);
    }
  }

  /** A string that has no uppercase ASCII letter is its own lower-case form. */
  lemma {:induction false} ToLowerOfLower(s: string)
    requires forall i :: 0 <= i < |s| ==> !IsAsciiUpper(s[i])
    ensures ToLower(s) == s
  {
    if s != [] {
      ToLowerOfLower(s[1..]);
      assert s == [s[0]] + s[1..];
    }
  }

  /** Lower-casing keeps prefixes: it works character by character. */
  lemma ToLowerKeepsPrefix(p: string, s: string)
    requires p <= s
    ensures ToLower(p) <= ToLower(s)
  {
  }
}
