/**
 * String helpers the exporter relies on: zero-padded decimal rendering (the
 * `pad` used by date formatting), joining with a separator, and the line
 * structure of a text. Each rendering function has a reader beside it so that
 * what it writes can be shown to be recoverable.
 */
module Text {

  type String = seq<char>

  predicate IsDigit(c: char) {
    '0' <= c <= '9'
  }

  predicate AllDigits(s: String) {
    forall i :: 0 <= i < |s| ==> IsDigit(s[i])
  }

  function DigitValue(c: char): (d: nat)
    requires IsDigit(c)
    ensures d < 10
  {
    c as int - '0' as int
  }

  function DigitChar(d: nat): (c: char)
    requires d < 10
    ensures IsDigit(c) && DigitValue(c) == d
  {
    ('0' as int + d) as char
  }

  function Pow10(k: nat): (p: nat)
    ensures p >= 1
  {
    if k == 0 then 1 else 10 * Pow10(k - 1)
  }

  /** Decimal rendering of `n` without leading zeros ("0" for zero). */
  function Digits(n: nat): (s: String)
    ensures 1 <= |s| && AllDigits(s)
  {
    if n < 10 then [DigitChar(n)] else Digits(n / 10) + [DigitChar(n % 10)]
  }

  /** Reads a string of decimal digits back as a number. */
  function ParseDigits(s: String): nat
    requires AllDigits(s)
  {
    if s == [] then 0 else 10 * ParseDigits(s[..|s| - 1]) + DigitValue(s[|s| - 1])
  }

  function Zeros(k: nat): (s: String)
    ensures |s| == k && AllDigits(s)
  {
    seq(k, i => '0')
  }

  /**
   * Left-pads the decimal rendering of `n` with '0' up to width `w`; a wider
   * number is kept whole, never truncated.
   */
  function Pad(n: nat, w: nat): (s: String)
    ensures AllDigits(s)
    ensures |s| == if |Digits(n)| < w then w else |Digits(n)|
  {
    var d := Digits(n);
    if |d| < w then Zeros(w - |d|) + d else d
  }

  lemma {:induction false} ParseDigitsOfDigits(n: nat)
    ensures ParseDigits(Digits(n)) == n
  {
    if n >= 10 {
      var s := Digits(n);
      assert s[..|s| - 1] == Digits(n / 10);
      ParseDigitsOfDigits(n / 10);
    }
  }

  lemma {:induction false} ParseDigitsOfZeros(k: nat)
    ensures ParseDigits(Zeros(k)) == 0
  {
    if k > 0 {
      assert Zeros(k)[..k - 1] == Zeros(k - 1);
      ParseDigitsOfZeros(k - 1);
    }
  }

  /** Leading zeros do not change the value read. */
  lemma {:induction false} ParseDigitsSkipsZeros(k: nat, s: String)
    requires AllDigits(s)
    ensures AllDigits(Zeros(k) + s) && ParseDigits(Zeros(k) + s) == ParseDigits(s)
    decreases |s|
  {
    var t := Zeros(k) + s;
    if s == [] {
      assert t == Zeros(k);
      ParseDigitsOfZeros(k);
    } else {
      assert t[..|t| - 1] == Zeros(k) + s[..|s| - 1];
      ParseDigitsSkipsZeros(k, s[..|s| - 1]);
    }
  }

  /** A padded number reads back as the number itself. */
  lemma PadRoundTrip(n: nat, w: nat)
    ensures ParseDigits(Pad(n, w)) == n
  {
    var d := Digits(n);
    ParseDigitsOfDigits(n);
    if |d| < w {
      ParseDigitsSkipsZeros(w - |d|, d);
    }
  }

  /** A number below 10^k needs at most k digits. */
  lemma {:induction false} DigitsLength(n: nat, k: nat)
    requires 1 <= k && n < Pow10(k)
    ensures |Digits(n)| <= k
  {
    if n >= 10 {
      DigitsLength(n / 10, k - 1);
    }
  }

  /** Padding a number below 10^w yields exactly w characters. */
  lemma PadLength(n: nat, w: nat)
    requires 1 <= w && n < Pow10(w)
    ensures |Pad(n, w)| == w
  {
    DigitsLength(n, w);
  }

  /** `xs` joined with `sep` between consecutive elements, as Array.prototype.join does. */
  function Join(xs: seq<String>, sep: String): String
  {
    if xs == [] then ""
    else if |xs| == 1 then xs[0]
    else xs[0] + sep + Join(xs[1..], sep)
  }

  /** The index of the first `c` in `s`, or `|s|` when there is none. */
  function IndexOf(s: String, c: char): (k: nat)
    ensures k <= |s|
    ensures k < |s| ==> s[k] == c
    ensures forall i :: 0 <= i < k ==> s[i] != c
  {
    if s == [] then 0 else if s[0] == c then 0 else 1 + IndexOf(s[1..], c)
  }

  /** The first `c` in `x + t` is the head of `t` when `x` holds no `c`. */
  lemma IndexOfAfter(x: String, t: String, c: char)
    requires c !in x && t != [] && t[0] == c
    ensures IndexOf(x + t, c) == |x|
  {
    var s := x + t;
    assert s[|x|] == c;
    assert forall i :: 0 <= i < |x| ==> s[i] == x[i];
  }

  /** Terminates each line with "\n" and concatenates them. */
  function Unlines(ls: seq<String>): String
  {
    if ls == [] then "" else ls[0] + "\n" + Unlines(ls[1..])
  }

  /**
   * Splits a text at its newlines; a final newline does not start an extra
   * (empty) line.
   */
  function SplitLines(s: String): seq<String>
    decreases |s|
  {
    if s == [] then []
    else
      var k := IndexOf(s, '\n');
      if k == |s| then [s] else [s[..k]] + SplitLines(s[k + 1..])
  }

  predicate NoNewline(l: String) {
    '\n' !in l
  }

  /** One newline-terminated line splits off the front of a text. */
  lemma SplitLinesStep(head: String, rest: String)
    requires NoNewline(head)
    ensures SplitLines(head + "\n" + rest) == [head] + SplitLines(rest)
  {
    var s := head + "\n" + rest;
    IndexOfAfter(head, "\n" + rest, '\n');
    assert s == head + ("\n" + rest);
    assert s[..|head|] == head;
    assert s[|head| + 1..] == rest;
  }

  /**
   * Lines written with `Unlines` are read back by `SplitLines`, whatever text
   * follows them, provided no line holds a newline of its own.
   */
  lemma {:induction false} SplitUnlines(ls: seq<String>, t: String)
    requires forall i :: 0 <= i < |ls| ==> NoNewline(ls[i])
    ensures SplitLines(Unlines(ls) + t) == ls + SplitLines(t)
  {
    if ls != [] {
      var tail := Unlines(ls[1..]) + t;
      var u := SplitLines(t);
      calc {
        SplitLines(Unlines(ls) + t);
        { assert Unlines(ls) + t == ls[0] + "\n" + tail; }
        SplitLines(ls[0] + "\n" + tail);
        { SplitLinesStep(ls[0], tail); }
        [ls[0]] + SplitLines(tail);
        { SplitUnlines(ls[1..], t); }
        [ls[0]] + (ls[1..] + u);
        { assert ls == [ls[0]] + ls[1..]; }
        ls + u;
      }
    } else {
      assert Unlines(ls) + t == t;
    }
  }

  /** Appending a line to the text appends it, newline-terminated, to what `Unlines` writes. */
  lemma {:induction false} UnlinesSnoc(ls: seq<String>, l: String)
    ensures Unlines(ls + [l]) == Unlines(ls) + (l + "\n")
  {
    if ls != [] {
      assert (ls + [l])[1..] == ls[1..] + [l];
      UnlinesSnoc(ls[1..], l);
    } else {
      assert Unlines([l]) == l + "\n" + Unlines([]);
    }
  }

  /** The last line written by `Unlines` closes the text, with its newline. */
  lemma {:induction false} UnlinesEndsWithLast(ls: seq<String>)
    requires ls != []
    ensures |Unlines(ls)| >= |ls[|ls| - 1]| + 1
    ensures Unlines(ls)[|Unlines(ls)| - |ls[|ls| - 1]| - 1..] == ls[|ls| - 1] + "\n"
  {
    if |ls| > 1 {
      UnlinesEndsWithLast(ls[1..]);
      var u := Unlines(ls);
      var r := Unlines(ls[1..]);
      assert u == ls[0] + "\n" + r;
      assert u[|u| - |ls[|ls| - 1]| - 1..] == r[|r| - |ls[|ls| - 1]| - 1..];
    }
  }

  /**
   * Splits a list written by `Join(_, ", ")`: at each comma, skipping the
   * space after it.
   */
  function SplitList(v: String): seq<String>
    decreases |v|
  {
    var k := IndexOf(v, ',');
    if k == |v| then [v]
    else if k + 1 == |v| then [v[..k], ""]
    else [v[..k]] + SplitList(v[k + 2..])
  }

  /** The comma-space list reader: the empty value is the empty list. */
  function ParseList(v: String): seq<String>
  {
    if v == [] then [] else SplitList(v)
  }

  lemma {:induction false} SplitListOfJoin(xs: seq<String>)
    requires xs != []
    requires forall i :: 0 <= i < |xs| ==> ',' !in xs[i]
    ensures SplitList(Join(xs, ", ")) == xs
  {
    if |xs| > 1 {
      var rest := Join(xs[1..], ", ");
      var v := Join(xs, ", ");
      assert v == xs[0] + (", " + rest);
      IndexOfAfter(xs[0], ", " + rest, ',');
      assert v[..|xs[0]|] == xs[0];
      assert v[|xs[0]| + 2..] == rest;
      SplitListOfJoin(xs[1..]);
      assert xs == [xs[0]] + xs[1..];
    } else {
      assert ',' !in xs[0];
    }
  }

  /**
   * A comma-space joined list of non-empty, comma-free names reads back as the
   * same names in the same order; the empty list joins to the empty value.
   */
  lemma JoinRoundTrip(xs: seq<String>)
    requires forall i :: 0 <= i < |xs| ==> xs[i] != [] && ',' !in xs[i]
    ensures ParseList(Join(xs, ", ")) == xs
  {
    if xs != [] {
      SplitListOfJoin(xs);
      assert |Join(xs, ", ")| >= |xs[0]| by {
        if |xs| > 1 { assert Join(xs, ", ") == xs[0] + ", " + Join(xs[1..], ", "); }
      }
    }
  }
}
