/**
 * `ColorUtils` (src/ColorUtils.js): the ANSI colour codes and
 * `stripColors`, which removes every `ESC [ digits m` sequence from a
 * string.
 */
module ColorUtils {
  import opened Wrappers
  import opened JsStrings
  import opened JsValues

  const Esc: char := 27 as char

  /** The escape sequence `ESC [ digits m`. */
  function ColorCode(digits: string): string {
    [Esc, '['] + digits + ['m']
  }

  /** `AnsiColorCode`: each member's name and the digits of its sequence. */
  const AnsiColorDigits: seq<(string, string)> := [
    ("RESET", "0"), ("BRIGHT", "1"), ("DIM", "2"), ("UNDERSCORE", "4"),
    ("BLINK", "5"), ("REVERSE", "7"), ("HIDDEN", "8"),
    ("BLACK", "30"), ("RED", "31"), ("GREEN", "32"), ("YELLOW", "33"),
    ("BLUE", "34"), ("MAGENTA", "35"), ("CYAN", "36"), ("WHITE", "37"),
    ("BG_BLACK", "40"), ("BG_RED", "41"), ("BG_GREEN", "42"), ("BG_YELLOW", "43"),
    ("BG_BLUE", "44"), ("BG_MAGENTA", "45"), ("BG_CYAN", "46"), ("BG_WHITE", "47")
  ]

  /** The value of the `i`th member of `AnsiColorCode`. */
  function AnsiColorCode(i: nat): string
    requires i < |AnsiColorDigits|
  {
    ColorCode(AnsiColorDigits[i].1)
  }

  /** Every member's digits are a non-empty run of decimal digits. */
  lemma AnsiColorDigitsAreDigits()
    ensures forall i :: 0 <= i < |AnsiColorDigits| ==>
      |AnsiColorDigits[i].1| >= 1 && AllDigits(AnsiColorDigits[i].1)
  {
  }

  /** The length of the match of `/\x1b\[[0-9]+m/` at the start of `s`, or 0
      when there is none. The digit run is greedy, and `m` is not a digit, so
      the match is the whole run of digits followed by `m`. */
  function MatchLength(s: string): (n: nat)
    ensures n <= |s|
    ensures n > 0 ==> n >= 4 && s[..n] == ColorCode(s[2..n - 1]) && AllDigits(s[2..n - 1])
  {
    if |s| >= 2 && s[0] == Esc && s[1] == '[' then
      var d := DigitPrefix(s[2..]);
      if |d| >= 1 && 2 + |d| < |s| && s[2 + |d|] == 'm' then
        assert s[2..2 + |d|] == d;
        3 + |d|
      else 0
    else 0
  }

  /** `s.replace(/\x1b\[[0-9]+m/g, "")`: matches are sought from left to
      right; after a match the search resumes behind it, elsewhere one
      character on. */
  function Strip(s: string): (r: string)
    ensures |r| <= |s|
    decreases |s|
  {
    if s == [] then []
    else if MatchLength(s) > 0 then Strip(s[MatchLength(s)..])
    else [s[0]] + Strip(s[1..])
  }

  /** `stripColors(value)`: a TypeError for anything but a string. */
  function StripColors(value: Value): (r: Result<string, JsError>)
    ensures r.Ok? <==> value.Str?
    ensures r.Ok? ==> r.value == Strip(value.s)
    ensures r.Err? ==> r.error.TypeError?
  {
    if !value.Str? then Err(TypeError("ColorUtils.stripColors(): value not a string"))
    else Ok(Strip(value.s))
  }

  // ---------------------------------------------------------------------
  // Properties.
  // ---------------------------------------------------------------------

  predicate EscFree(s: string) {
    Esc !in s
  }

  /** `sub` is `s` with some characters left out. */
  predicate IsSubsequence(sub: string, s: string)
    decreases |s|
  {
    if sub == [] then true
    else if s == [] then false
    else if sub[0] == s[0] then IsSubsequence(sub[1..], s[1..])
    else IsSubsequence(sub, s[1..])
  }

  lemma {:induction false} SubsequenceOfLonger(sub: string, s: string, n: nat)
    requires n <= |s| && IsSubsequence(sub, s[n..])
    ensures IsSubsequence(sub, s)
    decreases n
  {
    if n > 0 {
      assert s[n..] == s[1..][n - 1..];
      SubsequenceOfLonger(sub, s[1..], n - 1);
      SubsequencePrepend(sub, s[1..], s[0]);
      assert [s[0]] + s[1..] == s;
    }
  }

  lemma {:induction false} SubsequencePrepend(sub: string, s: string, c: char)
    requires IsSubsequence(sub, s)
    ensures IsSubsequence(sub, [c] + s)
    decreases |s|, 1
  {
    assert ([c] + s)[1..] == s;
    if sub != [] && sub[0] == c {
      SubsequenceDropFirst(sub, s);
    }
  }

  lemma {:induction false} SubsequenceDropFirst(sub: string, s: string)
    requires sub != [] && IsSubsequence(sub, s)
    ensures IsSubsequence(sub[1..], s)
    decreases |s|, 0
  {
    assert s != [];
    if sub[0] != s[0] {
      SubsequenceDropFirst(sub, s[1..]);
    }
    SubsequencePrepend(sub[1..], s[1..], s[0]);
    assert [s[0]] + s[1..] == s;
  }

  /** The output is the input with some characters left out. */
  lemma {:induction false} StripIsSubsequence(s: string)
    ensures IsSubsequence(Strip(s), s)
    decreases |s|
  {
    if s != [] {
      var n := MatchLength(s);
      if n > 0 {
        StripIsSubsequence(s[n..]);
        SubsequenceOfLonger(Strip(s), s, n);
      } else {
        StripIsSubsequence(s[1..]);
      }
    }
  }

  /** A string without ESC is returned unchanged. */
  lemma {:induction false} StripEscFree(s: string)
    requires EscFree(s)
    ensures Strip(s) == s
    decreases |s|
  {
    if s != [] {
      assert s[0] in s;
      assert EscFree(s[1..]) by {
        forall i | 0 <= i < |s[1..]| ensures s[1..][i] != Esc {
          assert s[1..][i] == s[i + 1];
        }
      }
      StripEscFree(s[1..]);
    }
  }

  /** A character other than ESC is kept. */
  lemma StripKeepsFirst(c: char, t: string)
    requires c != Esc
    ensures Strip([c] + t) == [c] + Strip(t)
  {
    assert MatchLength([c] + t) == 0;
    assert ([c] + t)[1..] == t;
  }

  /** An ESC-free prefix passes through unchanged. */
  lemma {:induction false} StripEscFreePrefix(a: string, t: string)
    requires EscFree(a)
    ensures Strip(a + t) == a + Strip(t)
    decreases |a|
  {
    if a != [] {
      assert a[0] in a;
      assert a + t == [a[0]] + (a[1..] + t);
      assert EscFree(a[1..]) by {
        forall i | 0 <= i < |a[1..]| ensures a[1..][i] != Esc {
          assert a[1..][i] == a[i + 1];
        }
      }
      calc {
        Strip(a + t);
        Strip([a[0]] + (a[1..] + t));
        { StripKeepsFirst(a[0], a[1..] + t); }
        [a[0]] + Strip(a[1..] + t);
        { StripEscFreePrefix(a[1..], t); }
        [a[0]] + (a[1..] + Strip(t));
        { assert a == [a[0]] + a[1..]; }
        a + Strip(t);
      }
    } else {
      assert a + t == t;
    }
  }

  /** A colour code at the front is removed. */
  lemma StripColorCodeFirst(digits: string, t: string)
    requires |digits| >= 1 && AllDigits(digits)
    ensures Strip(ColorCode(digits) + t) == Strip(t)
  {
    var s := ColorCode(digits) + t;
    assert s[2..] == digits + ['m'] + t;
    assert DigitPrefix(s[2..]) == digits by {
      DigitPrefixOfRun(digits, ['m'] + t);
      assert s[2..] == digits + (['m'] + t);
    }
    assert MatchLength(s) == |digits| + 3;
    assert s[|digits| + 3..] == t;
  }

  lemma {:induction false} DigitPrefixOfRun(digits: string, t: string)
    requires AllDigits(digits) && (t == [] || !IsDigit(t[0]))
    ensures DigitPrefix(digits + t) == digits
    decreases |digits|
  {
    if digits != [] {
      assert (digits + t)[1..] == digits[1..] + t;
      DigitPrefixOfRun(digits[1..], t);
    }
  }

  /** Colouring ESC-free text and stripping it gives the text back:
      `stripColors(a + c + b) == a + b` for every `AnsiColorCode` member `c`. */
  lemma StripAnsiColorCode(a: string, i: nat, b: string)
    requires EscFree(a) && EscFree(b)
    requires i < |AnsiColorDigits|
    ensures StripColors(Str(a + AnsiColorCode(i) + b)) == Ok(a + b)
  {
    AnsiColorDigitsAreDigits();
    assert a + AnsiColorCode(i) + b == a + (AnsiColorCode(i) + b);
    StripEscFreePrefix(a, AnsiColorCode(i) + b);
    StripColorCodeFirst(AnsiColorDigits[i].1, b);
    StripEscFree(b);
  }

  /** Removing one pass of sequences can leave a new one behind: in
      `ESC [ 1 ESC [ 2 m m` the inner sequence is removed and `ESC [ 1 m`
      is what remains. */
  lemma StripIsOnePass()
    ensures var s := [Esc, '[', '1', Esc, '[', '2', 'm', 'm'];
      Strip(s) == ColorCode("1") && Strip(Strip(s)) == []
  {
    var s := [Esc, '[', '1', Esc, '[', '2', 'm', 'm'];
    var u := [Esc, '[', '2', 'm', 'm'];
    assert DigitPrefix(u[2..]) == ['2'];
    assert MatchLength(u) == 4;
    assert Strip(u[4..]) == ['m'];
    assert Strip(u) == ['m'];
    assert DigitPrefix(s[2..]) == ['1'];
    assert MatchLength(s) == 0;
    assert MatchLength(s[1..]) == 0;
    assert MatchLength(s[2..]) == 0;
    assert s[3..] == u;
    assert Strip(s[2..]) == ['1', 'm'];
    assert Strip(s[1..]) == ['[', '1', 'm'];
    assert Strip(s) == [Esc, '[', '1', 'm'];
    StripColorCodeFirst("1", []);
    assert ColorCode("1") + [] == ColorCode("1");
  }
}
