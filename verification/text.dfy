/** Text helpers used to compose the alert and error strings: decimal rendering of a
    count, joining lines with a newline, and splitting a text back into its lines. */
module Text {
  import opened Seqs

  predicate IsDigit(c: char) {
    '0' <= c <= '9'
  }

  predicate AllDigits(s: string) {
    forall i :: 0 <= i < |s| ==> IsDigit(s[i])
  }

  function DigitChar(d: nat): (c: char)
    requires d < 10
    ensures IsDigit(c) && c as int - '0' as int == d
  {
    "0123456789"[d]
  }

  /** Decimal rendering of a non-negative integer, as Python's str() gives it:
      digits only, never empty, no leading zero. */
  function NatToString(n: nat): (s: string)
    ensures |s| >= 1 && AllDigits(s)
    ensures s[0] == '0' ==> n == 0 && s == "0"
    decreases n
  {
    if n < 10 then [DigitChar(n)] else NatToString(n / 10) + [DigitChar(n % 10)]
  }

  /** The value a string of decimal digits denotes. */
  function DigitsValue(s: string): nat
    requires AllDigits(s)
    decreases |s|
  {
    if s == [] then 0 else DigitsValue(Init(s)) * 10 + (Last(s) as int - '0' as int)
  }

  /** Reading back the rendering gives the number. */
  lemma {:induction false} NatToStringRoundTrip(n: nat)
    ensures DigitsValue(NatToString(n)) == n
    decreases n
  {
    if n >= 10 {
      NatToStringRoundTrip(n / 10);
      var s := NatToString(n);
      assert Init(s) == NatToString(n / 10);
    }
  }

  /** The number of characters in all the lines together. */
  function TotalLength(lines: seq<string>): nat
    decreases |lines|
  {
    if lines == [] then 0 else |lines[0]| + TotalLength(lines[1..])
  }

  /** Lines separated by a newline, with no trailing newline ("\n".join in Python). */
  function JoinLines(lines: seq<string>): (s: string)
    // every line is kept, with one newline between neighbours
    ensures lines != [] ==> |s| == TotalLength(lines) + |lines| - 1
    // the text starts with the first line
    ensures lines != [] ==> s[..|lines[0]|] == lines[0]
    decreases |lines|
  {
    if |lines| == 0 then ""
    else if |lines| == 1 then lines[0]
    else lines[0] + "\n" + JoinLines(lines[1..])
  }

  /** The lines of a text: the pieces between newlines. Always at least one piece. */
  function SplitLines(s: string): (lines: seq<string>)
    ensures |lines| >= 1
    decreases |s|
  {
    if s == [] then [""]
    else
      var rest := SplitLines(s[1..]);
      if s[0] == '\n' then [""] + rest
      else [[s[0]] + rest[0]] + rest[1..]
  }

  predicate NoNewline(s: string) {
    '\n' !in s
  }

  lemma {:induction false} SplitSingleLine(s: string)
    requires NoNewline(s)
    ensures SplitLines(s) == [s]
    decreases |s|
  {
    if s != [] {
      assert s == [s[0]] + s[1..];
      SplitSingleLine(s[1..]);
    }
  }

  /** One step of splitting: the first character either ends a line or starts it. */
  lemma SplitCons(c: char, t: string)
    ensures SplitLines([c] + t) ==
      if c == '\n' then [""] + SplitLines(t)
      else [[c] + SplitLines(t)[0]] + SplitLines(t)[1..]
  {
    assert ([c] + t)[0] == c && ([c] + t)[1..] == t;
  }

  /** Extending the first line of a non-empty run commutes with appending more lines. */
  lemma ExtendFirst(x: string, xs: seq<string>, ys: seq<string>)
    requires xs != []
    ensures [x + (xs + ys)[0]] + (xs + ys)[1..] == [x + xs[0]] + xs[1..] + ys
  {
    assert (xs + ys)[1..] == xs[1..] + ys;
  }

  /** A newline splits a text into the lines before it and the lines after it. */
  lemma {:induction false} SplitAround(a: string, b: string)
    ensures SplitLines(a + "\n" + b) == SplitLines(a) + SplitLines(b)
    decreases |a|
  {
    if a == [] {
      assert a + "\n" + b == ['\n'] + b;
      SplitCons('\n', b);
    } else {
      var c, t := a[0], a[1..];
      assert a == [c] + t && a + "\n" + b == [c] + (t + "\n" + b);
      SplitAround(t, b);
      SplitCons(c, t);
      SplitCons(c, t + "\n" + b);
      if c != '\n' {
        ExtendFirst([c], SplitLines(t), SplitLines(b));
      }
    }
  }

  /** Joining two non-empty runs of lines with a newline joins their concatenation. */
  lemma {:induction false} JoinAppend(xs: seq<string>, ys: seq<string>)
    requires xs != [] && ys != []
    ensures JoinLines(xs) + "\n" + JoinLines(ys) == JoinLines(xs + ys)
    decreases |xs|
  {
    var zs := xs + ys;
    assert zs[0] == xs[0] && |zs| > 1;
    if |xs| == 1 {
      assert zs[1..] == ys;
      assert JoinLines(zs) == xs[0] + "\n" + JoinLines(ys);
    } else {
      JoinAppend(xs[1..], ys);
      assert zs[1..] == xs[1..] + ys;
      var head, tail := xs[0] + "\n", JoinLines(xs[1..]);
      assert JoinLines(xs) == head + tail;
      assert JoinLines(zs) == head + (tail + "\n" + JoinLines(ys));
    }
  }

  /** Splitting undoes joining, as long as no line holds a newline of its own. */
  lemma {:induction false} SplitJoin(lines: seq<string>)
    requires lines != []
    requires forall i :: 0 <= i < |lines| ==> NoNewline(lines[i])
    ensures SplitLines(JoinLines(lines)) == lines
    decreases |lines|
  {
    SplitSingleLine(lines[0]);
    if |lines| > 1 {
      SplitJoin(lines[1..]);
      SplitAround(lines[0], JoinLines(lines[1..]));
    }
  }
}
