/**
 * String operations the JavaScript code relies on: `startsWith`, `endsWith`,
 * `includes`, `toLowerCase`, number-to-string conversion and `Array.prototype.join("\n")`.
 */
module Text {

  predicate StartsWith(s: string, prefix: string) {
    |prefix| <= |s| && s[..|prefix|] == prefix
  }

  predicate EndsWith(s: string, suffix: string) {
    |suffix| <= |s| && s[|s| - |suffix|..] == suffix
  }

  /** `s.includes(sub)`: `sub` occurs somewhere in `s`. */
  predicate Contains(s: string, sub: string)
    decreases |s|
  {
    StartsWith(s, sub) || (|s| > 0 && Contains(s[1..], sub))
  }

  /** A string that ends with `sub` contains it. */
  lemma {:induction false} ContainsSuffix(s: string, sub: string)
    requires EndsWith(s, sub)
    ensures Contains(s, sub)
    decreases |s|
  {
    if StartsWith(s, sub) {
    } else {
      assert |s| > |sub|;
      assert s[1..][|s[1..]| - |sub|..] == s[|s| - |sub|..];
      ContainsSuffix(s[1..], sub);
    }
  }

  predicate IsDecimalDigit(c: char) {
    '0' <= c <= '9'
  }

  function DigitChar(d: nat): (c: char)
    requires d < 10
    ensures IsDecimalDigit(c)
  {
    "0123456789"[d]
  }

  /** Decimal text of a natural number, as JavaScript prints an integer-valued Number. */
  function NatToString(n: nat): (s: string)
    ensures |s| > 0
  {
    if n < 10 then [DigitChar(n)] else NatToString(n / 10) + [DigitChar(n % 10)]
  }

  /** The decimal text is made of digits only. */
  lemma {:induction false} NatToStringDigits(n: nat)
    ensures forall i :: 0 <= i < |NatToString(n)| ==> IsDecimalDigit(NatToString(n)[i])
  {
    if n >= 10 {
      NatToStringDigits(n / 10);
    }
  }

  /** Decimal text of an integer, with a leading `-` when negative (the JavaScript form for safe integers). */
  function IntToString(i: int): string {
    if i < 0 then "-" + NatToString(-i) else NatToString(i)
  }

  /** Only zero is printed with a leading `0`. */
  lemma {:induction false} NatToStringLeadingZero(n: nat)
    ensures NatToString(n)[0] == '0' <==> n == 0
  {
    if n >= 10 {
      NatToStringLeadingZero(n / 10);
      assert NatToString(n)[0] == NatToString(n / 10)[0];
    }
  }

  /** `lines.join("\n")`: the lines separated by a newline, none after the last. */
  function JoinLines(lines: seq<string>): string {
    if lines == [] then ""
    else if |lines| == 1 then lines[0]
    else lines[0] + "\n" + JoinLines(lines[1..])
  }

  /** `s.split("\n")`: the independent reader that the master file is written for. */
  function SplitLines(s: string): (r: seq<string>)
    ensures |r| > 0
    decreases |s|
  {
    if '\n' !in s then [s]
    else
      var i := IndexOfNewline(s);
      [s[..i]] + SplitLines(s[i + 1..])
  }

  function IndexOfNewline(s: string): (i: nat)
    requires '\n' in s
    ensures i < |s| && s[i] == '\n' && '\n' !in s[..i]
  {
    if s[0] == '\n' then 0
    else
      var j := IndexOfNewline(s[1..]);
      assert s[1..][..j] == s[1..j + 1];
      1 + j
  }

  /** Splitting the joined lines gives the lines back, provided no line holds a newline. */
  lemma {:induction false} SplitJoinLines(lines: seq<string>)
    requires |lines| > 0
    requires forall k :: 0 <= k < |lines| ==> '\n' !in lines[k]
    ensures SplitLines(JoinLines(lines)) == lines
  {
    if |lines| > 1 {
      var s := JoinLines(lines);
      var rest := JoinLines(lines[1..]);
      assert s == lines[0] + "\n" + rest;
      var i := |lines[0]|;
      assert s[i] == '\n';
      assert '\n' in s;
      assert s[..i] == lines[0];
      assert IndexOfNewline(s) == i;
      assert s[i + 1..] == rest;
      SplitJoinLines(lines[1..]);
      assert lines == [lines[0]] + lines[1..];
    }
  }

  /** Joining a leading line onto the rest. */
  lemma JoinLinesCons(first: string, rest: seq<string>)
    requires |rest| > 0
    ensures JoinLines([first] + rest) == first + "\n" + JoinLines(rest)
  {
    assert ([first] + rest)[1..] == rest;
  }

  lemma JoinFourLines(a: string, b: string, c: string, d: string)
    ensures JoinLines([a, b, c, d]) == a + "\n" + b + "\n" + c + "\n" + d
  {
    assert [a, b, c, d][1..] == [b, c, d];
    assert [b, c, d][1..] == [c, d];
    assert [c, d][1..] == [d];
    assert JoinLines([c, d]) == c + "\n" + d;
    assert JoinLines([b, c, d]) == b + "\n" + (c + "\n" + d);
    assert JoinLines([a, b, c, d]) == a + "\n" + (b + "\n" + (c + "\n" + d));
  }

  /** The joined text starts with the joined first lines and a newline when more lines follow. */
  lemma {:induction false} JoinLinesPrefix(head: seq<string>, tail: seq<string>)
    requires |head| > 0 && |tail| > 0
    ensures StartsWith(JoinLines(head + tail), JoinLines(head) + "\n")
    ensures JoinLines(head + tail) == JoinLines(head) + "\n" + JoinLines(tail)
    decreases |head|
  {
    if |head| == 1 {
      JoinLinesCons(head[0], tail);
      assert head + tail == [head[0]] + tail;
    } else {
      JoinLinesPrefix(head[1..], tail);
      assert (head + tail)[1..] == head[1..] + tail;
      JoinLinesCons(head[0], head[1..] + tail);
      JoinLinesCons(head[0], head[1..]);
      assert head + tail == [head[0]] + (head[1..] + tail);
      assert head == [head[0]] + head[1..];
    }
  }

  /**
   * `c.toLowerCase()` where it gives an ASCII letter: the ASCII capitals and U+212A
   * KELVIN SIGN, which lower-cases to `k`. Every other character is left as it is.
   */
  function LowerChar(c: char): char {
    if 'A' <= c <= 'Z' then (c as int + 32) as char
    else if c == '\U{212A}' then 'k'
    else c
  }

  function Lower(s: string): (r: string)
    ensures |r| == |s|
    ensures forall i :: 0 <= i < |s| ==> r[i] == LowerChar(s[i])
  {
    if s == [] then [] else [LowerChar(s[0])] + Lower(s[1..])
  }

  /** Lower-casing works character by character, so it distributes over concatenation. */
  lemma LowerConcat(a: string, b: string)
    ensures Lower(a + b) == Lower(a) + Lower(b)
  {
    var l, r := Lower(a + b), Lower(a) + Lower(b);
    assert |l| == |r|;
    forall i | 0 <= i < |l|
      ensures l[i] == r[i]
    {
      if i < |a| {
        assert (a + b)[i] == a[i];
      } else {
        assert (a + b)[i] == b[i - |a|];
      }
    }
  }
}
