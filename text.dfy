/** String helpers with the meaning the Python scripts give them:
    `str(n)` for a non-negative integer, `str.replace(".", "")`,
    `str.strip()`, `str.lower()` and `str.endswith`, restricted to ASCII. */
module Text {

  predicate IsDigit(c: char) { '0' <= c <= '9' }

  predicate AllDigits(s: string) { forall i :: 0 <= i < |s| ==> IsDigit(s[i]) }

  function DigitChar(d: nat): (c: char)
    requires d < 10
    ensures IsDigit(c) && c as int - '0' as int == d
  {
    ('0' as int + d) as char
  }

  /** The number a string of decimal digits denotes (most significant digit first). */
  function DigitsValue(s: string): nat
    requires AllDigits(s)
  {
    if s == [] then 0 else 10 * DigitsValue(s[..|s| - 1]) + (s[|s| - 1] as int - '0' as int)
  }

  /** Python's `str(n)` for `n >= 0`: decimal digits, no padding, no leading zero. */
  function NatToString(n: nat): (s: string)
    ensures 1 <= |s| && AllDigits(s)
    ensures |s| > 1 ==> s[0] != '0'
    ensures DigitsValue(s) == n
  {
    if n < 10 then [DigitChar(n)]
    else
      var prefix := NatToString(n / 10);
      assert (prefix + [DigitChar(n % 10)])[..|prefix|] == prefix;
      prefix + [DigitChar(n % 10)]
  }

  /** Two numbers print alike only when they are equal. */
  lemma NatToStringInjective(m: nat, n: nat)
    ensures NatToString(m) == NatToString(n) <==> m == n
  {
  }

  /** Every canonical digit string (non-empty, no leading zero) is what `str` prints for its value. */
  lemma {:induction false} NatToStringOfCanonical(s: string)
    requires 1 <= |s| && AllDigits(s) && (|s| > 1 ==> s[0] != '0')
    ensures NatToString(DigitsValue(s)) == s
  {
    var n := DigitsValue(s);
    if |s| == 1 {
      assert s[..0] == [] && DigitsValue(s[..0]) == 0;
      assert n == s[0] as int - '0' as int;
      assert NatToString(n) == [DigitChar(n)];
    } else {
      var init := s[..|s| - 1];
      assert init[0] == s[0];
      NatToStringOfCanonical(init);
      var d := s[|s| - 1] as int - '0' as int;
      assert n == 10 * DigitsValue(init) + d;
      // init does not start with '0', so it is not "0", the only canonical string of value 0
      assert DigitsValue(init) != 0 by {
        assert init == NatToString(DigitsValue(init));
        assert NatToString(0) == "0";
      }
      assert n / 10 == DigitsValue(init) && n % 10 == d;
      assert NatToString(n) == NatToString(n / 10) + [DigitChar(n % 10)];
      assert s == init + [s[|s| - 1]];
    }
  }

  /** The length of the longest prefix of `s` made of digits. */
  function DigitRun(s: string): (n: nat)
    ensures n <= |s|
  {
    if s != [] && IsDigit(s[0]) then 1 + DigitRun(s[1..]) else 0
  }

  lemma {:induction false} DigitRunOf(x: string, y: string)
    requires AllDigits(x) && y != [] && !IsDigit(y[0])
    ensures DigitRun(x + y) == |x|
  {
    if x == [] {
      assert x + y == y;
    } else {
      assert (x + y)[1..] == x[1..] + y;
      DigitRunOf(x[1..], y);
    }
  }

  /** A digit string ends where the first non-digit begins: two splits of one
      string into digits followed by a non-digit agree. */
  lemma DigitsPrefixUnique(x1: string, y1: string, x2: string, y2: string)
    requires AllDigits(x1) && AllDigits(x2)
    requires y1 != [] && !IsDigit(y1[0]) && y2 != [] && !IsDigit(y2[0])
    requires x1 + y1 == x2 + y2
    ensures x1 == x2 && y1 == y2
  {
    DigitRunOf(x1, y1);
    DigitRunOf(x2, y2);
    assert x1 == (x1 + y1)[..|x1|];
    assert x2 == (x2 + y2)[..|x2|];
    assert y1 == (x1 + y1)[|x1|..];
    assert y2 == (x2 + y2)[|x2|..];
  }

  // ---------------------------------------------------------------------------
  // rut.replace(".", "")

  /** The string with every '.' removed and every other character kept, in order. */
  function StripDots(s: string): (r: string)
    ensures |r| <= |s|
  {
    if s == [] then []
    else
      var rest := StripDots(s[1..]);
      if s[0] == '.' then rest else [s[0]] + rest
  }

  /** No dot is left. */
  lemma {:induction false} StripDotsRemovesDots(s: string)
    ensures '.' !in StripDots(s)
  {
    if s != [] {
      StripDotsRemovesDots(s[1..]);
    }
  }

  /** Every character other than '.' is kept as often as it occurs. */
  lemma {:induction false} StripDotsKeepsOthers(s: string)
    ensures forall c :: c != '.' ==> multiset(StripDots(s))[c] == multiset(s)[c]
  {
    if s != [] {
      StripDotsKeepsOthers(s[1..]);
      assert s == [s[0]] + s[1..];
    }
  }

  /** Removing dots works piecewise, so the kept characters stay in their order. */
  lemma {:induction false} StripDotsAppend(a: string, b: string)
    ensures StripDots(a + b) == StripDots(a) + StripDots(b)
  {
    if a == [] {
      assert a + b == b;
    } else {
      assert (a + b)[1..] == a[1..] + b;
      StripDotsAppend(a[1..], b);
    }
  }

  /** A string without dots is left as it is; in particular removing dots twice changes nothing. */
  lemma {:induction false} StripDotsNoDots(s: string)
    requires forall i :: 0 <= i < |s| ==> s[i] != '.'
    ensures StripDots(s) == s
  {
    if s != [] {
      StripDotsNoDots(s[1..]);
    }
  }

  /** A RUT written with thousands separators, such as `12.345.678-9`, loses
      only its two dots: `12345678-9`. */
  lemma StripDotsSeparators(a: string, b: string, c: string)
    requires forall i :: 0 <= i < |a| ==> a[i] != '.'
    requires forall i :: 0 <= i < |b| ==> b[i] != '.'
    requires forall i :: 0 <= i < |c| ==> c[i] != '.'
    ensures StripDots(a + "." + b + "." + c) == a + b + c
  {
    var dot := ".";
    StripDotsAppend(a + dot + b + dot, c);
    StripDotsAppend(a + dot + b, dot);
    StripDotsAppend(a + dot, b);
    StripDotsAppend(a, dot);
    StripDotsNoDots(a);
    StripDotsNoDots(b);
    StripDotsNoDots(c);
    assert StripDots(dot) == [];
    assert a + [] == a && a + b + [] == a + b;
  }

  lemma StripDotsExample()
    ensures StripDots("12.345.678-9") == "12345678-9"
  {
    StripDotsSeparators("12", "345", "678-9");
    assert "12" + "." + "345" + "." + "678-9" == "12.345.678-9";
    assert "12" + "345" + "678-9" == "12345678-9";
  }

  // ---------------------------------------------------------------------------
  // str.strip()

  /** The characters Python's `str.isspace` accepts within ASCII:
      space, \t \n \v \f \r and the separators \x1c-\x1f. */
  predicate IsSpace(c: char) { c == ' ' || 9 <= c as int <= 13 || 28 <= c as int <= 31 }

  predicate AllSpace(s: string) { forall i :: 0 <= i < |s| ==> IsSpace(s[i]) }

  /** `str.lstrip()`: the suffix left after the leading white space. */
  function TrimStart(s: string): (r: string)
    ensures |r| <= |s| && r == s[|s| - |r|..]
    ensures AllSpace(s[..|s| - |r|])
    ensures r == [] || !IsSpace(r[0])
  {
    if s != [] && IsSpace(s[0]) then TrimStart(s[1..]) else s
  }

  /** `str.rstrip()`: the prefix left before the trailing white space. */
  function TrimEnd(s: string): (r: string)
    ensures |r| <= |s| && r == s[..|r|]
    ensures AllSpace(s[|r|..])
    ensures r == [] || !IsSpace(r[|r| - 1])
  {
    if s != [] && IsSpace(s[|s| - 1]) then TrimEnd(s[..|s| - 1]) else s
  }

  /** Neither starts nor ends with white space. */
  predicate Trimmed(s: string) { s == [] || (!IsSpace(s[0]) && !IsSpace(s[|s| - 1])) }

  function Strip(s: string): (r: string)
    ensures |r| <= |s|
    ensures Trimmed(r)
  {
    TrimEnd(TrimStart(s))
  }

  /** `strip` removes exactly the white space around a core that neither starts nor ends with white space. */
  lemma {:induction false} StripSurrounded(pre: string, core: string, post: string)
    requires AllSpace(pre) && AllSpace(post)
    requires core == [] || (!IsSpace(core[0]) && !IsSpace(core[|core| - 1]))
    ensures Strip(pre + core + post) == core
  {
    if core == [] {
      var all := pre + core + post;
      assert AllSpace(all);
      TrimStartSpaces(all, []);
      assert all + [] == all;
    } else {
      TrimStartSpaces(pre, core + post);
      assert pre + core + post == pre + (core + post);
      assert TrimStart(core + post) == core + post;
      TrimEndSpaces(core, post);
    }
  }

  lemma {:induction false} TrimStartSpaces(pre: string, s: string)
    requires AllSpace(pre) && (s == [] || !IsSpace(s[0]))
    ensures TrimStart(pre + s) == s
  {
    if pre == [] {
      assert pre + s == s;
    } else {
      assert (pre + s)[1..] == pre[1..] + s;
      TrimStartSpaces(pre[1..], s);
    }
  }

  lemma {:induction false} TrimEndSpaces(s: string, post: string)
    requires AllSpace(post) && (s == [] || !IsSpace(s[|s| - 1]))
    ensures TrimEnd(s + post) == s
  {
    if post == [] {
      assert s + post == s;
    } else {
      var shorter := post[..|post| - 1];
      assert (s + post)[..|s + post| - 1] == s + shorter;
      TrimEndSpaces(s, shorter);
    }
  }

  /** Stripping twice is stripping once. */
  lemma StripIdempotent(s: string)
    ensures Strip(Strip(s)) == Strip(s)
  {
    var r := Strip(s);
    StripSurrounded([], r, []);
    assert [] + r + [] == r;
  }

  // ---------------------------------------------------------------------------
  // str.lower() and str.endswith()

  function LowerChar(c: char): char {
    if 'A' <= c <= 'Z' then (c as int - 'A' as int + 'a' as int) as char else c
  }

  /** `str.lower()` on the characters a file name can hold here: each ASCII
      capital becomes its small letter (32 code points further on), every
      other character stays, and no capital is left. */
  function Lower(s: string): (r: string)
    ensures |r| == |s|
    ensures forall i :: 0 <= i < |s| ==>
      if 'A' <= s[i] <= 'Z' then r[i] as int == s[i] as int + 32 && 'a' <= r[i] <= 'z' else r[i] == s[i]
    ensures forall i :: 0 <= i < |r| ==> !('A' <= r[i] <= 'Z')
  {
    seq(|s|, i requires 0 <= i < |s| => LowerChar(s[i]))
  }

  /** Lower-casing works character by character, so it splits over concatenation. */
  lemma LowerAppend(a: string, b: string)
    ensures Lower(a + b) == Lower(a) + Lower(b)
  {
    var l, r := Lower(a + b), Lower(a) + Lower(b);
    assert |l| == |r|;
    forall i | 0 <= i < |l| ensures l[i] == r[i] {
      if i < |a| {
        assert (a + b)[i] == a[i];
      } else {
        assert (a + b)[i] == b[i - |a|];
      }
    }
  }

  /** Lower-casing twice is lower-casing once. */
  lemma LowerIdempotent(s: string)
    ensures Lower(Lower(s)) == Lower(s)
  {
    var l := Lower(s);
    forall i | 0 <= i < |l| ensures Lower(l)[i] == l[i] {
      assert !('A' <= l[i] <= 'Z');
    }
  }

  predicate EndsWith(s: string, suffix: string) {
    |suffix| <= |s| && s[|s| - |suffix|..] == suffix
  }
}
