/** The string operations the service relies on, over ASCII text. */
module Text {

  /** Tab to carriage return, the four separators, and the blank. */
  predicate IsSpace(c: char) {
    9 <= c as int <= 13 || 28 <= c as int <= 32
  }

  function LowerChar(c: char): char {
    if 'A' <= c <= 'Z' then (c as int + 32) as char else c
  }

  function UpperChar(c: char): char {
    if 'a' <= c <= 'z' then (c as int - 32) as char else c
  }

  function Lower(s: string): (r: string)
    ensures |r| == |s|
    ensures forall i :: 0 <= i < |s| ==> r[i] == LowerChar(s[i])
  {
    seq(|s|, i requires 0 <= i < |s| => LowerChar(s[i]))
  }

  function Upper(s: string): (r: string)
    ensures |r| == |s|
    ensures forall i :: 0 <= i < |s| ==> r[i] == UpperChar(s[i])
  {
    seq(|s|, i requires 0 <= i < |s| => UpperChar(s[i]))
  }

  ghost predicate AllSpace(s: string) {
    forall i :: 0 <= i < |s| ==> IsSpace(s[i])
  }

  ghost predicate NoSpace(s: string) {
    forall i :: 0 <= i < |s| ==> !IsSpace(s[i])
  }

  function StripLeft(s: string): string {
    if s != [] && IsSpace(s[0]) then StripLeft(s[1..]) else s
  }

  function StripRight(s: string): string {
    if s != [] && IsSpace(s[|s| - 1]) then StripRight(s[..|s| - 1]) else s
  }

  function Strip(s: string): string {
    StripRight(StripLeft(s))
  }

  function WordLength(s: string): (n: nat)
    ensures n <= |s|
    ensures NoSpace(s[..n]) && (n == |s| || IsSpace(s[n]))
  {
    if s == [] || IsSpace(s[0]) then 0 else 1 + WordLength(s[1..])
  }

  /** The maximal runs of non-blank characters. */
  function Split(s: string): seq<string>
    decreases |s|
  {
    if s == [] then []
    else if IsSpace(s[0]) then Split(s[1..])
    else
      var n := WordLength(s);
      [s[..n]] + Split(s[n..])
  }

  const SMALL_LETTERS := "abcdefghijklmnopqrstuvwxyz"
  const CAPITAL_LETTERS := "ABCDEFGHIJKLMNOPQRSTUVWXYZ"

  /** Case conversion pairs the letters off and leaves every other character alone. */
  lemma LettersChangeCase(c: char)
    ensures |SMALL_LETTERS| == |CAPITAL_LETTERS| == 26
    ensures forall i :: 0 <= i < 26 ==>
                          LowerChar(CAPITAL_LETTERS[i]) == SMALL_LETTERS[i] && UpperChar(SMALL_LETTERS[i]) == CAPITAL_LETTERS[i]
    ensures c !in CAPITAL_LETTERS ==> LowerChar(c) == c
    ensures c !in SMALL_LETTERS ==> UpperChar(c) == c
  {
    if 'A' <= c <= 'Z' {
      assert CAPITAL_LETTERS[c as int - 65] == c;
    }
    if 'a' <= c <= 'z' {
      assert SMALL_LETTERS[c as int - 97] == c;
    }
  }

  /** The blanks are the six of the C locale and the four separators. */
  lemma BlanksExactly(c: char)
    ensures IsSpace(c) <==> c in " \t\n\r\U{0B}\U{0C}" || c in "\U{1C}\U{1D}\U{1E}\U{1F}"
  {
  }

  lemma {:induction false} SplitPad(pad: string, s: string)
    requires AllSpace(pad)
    ensures Split(pad + s) == Split(s)
  {
    if pad == [] {
      assert pad + s == s;
    } else {
      assert (pad + s)[1..] == pad[1..] + s;
      SplitPad(pad[1..], s);
    }
  }

  lemma {:induction false} WordLengthOf(w: string, rest: string)
    requires NoSpace(w) && (rest == [] || IsSpace(rest[0]))
    ensures WordLength(w + rest) == |w|
  {
    if w == [] {
      assert w + rest == rest;
    } else {
      assert (w + rest)[1..] == w[1..] + rest;
      WordLengthOf(w[1..], rest);
    }
  }

  lemma SplitWord(w: string, rest: string)
    requires w != [] && NoSpace(w) && (rest == [] || IsSpace(rest[0]))
    ensures Split(w + rest) == [w] + Split(rest)
  {
    WordLengthOf(w, rest);
    assert (w + rest)[..|w|] == w && (w + rest)[|w|..] == rest;
  }

  lemma {:induction false} SplitTrailing(s: string, pad: string)
    requires AllSpace(pad)
    ensures Split(s + pad) == Split(s)
    decreases |s|
  {
    if s == [] {
      assert s + pad == pad && pad + [] == pad;
      SplitPad(pad, []);
    } else if IsSpace(s[0]) {
      assert (s + pad)[1..] == s[1..] + pad;
      SplitTrailing(s[1..], pad);
    } else {
      var n := WordLength(s);
      assert s + pad == s[..n] + (s[n..] + pad);
      SplitWord(s[..n], s[n..] + pad);
      SplitTrailing(s[n..], pad);
    }
  }

  lemma {:induction false} StripLeftShape(s: string) returns (pad: string)
    ensures AllSpace(pad) && s == pad + StripLeft(s)
    ensures StripLeft(s) == [] || !IsSpace(StripLeft(s)[0])
  {
    if s != [] && IsSpace(s[0]) {
      var rest := StripLeftShape(s[1..]);
      pad := [s[0]] + rest;
    } else {
      pad := [];
    }
  }

  lemma {:induction false} StripRightShape(s: string) returns (pad: string)
    ensures AllSpace(pad) && s == StripRight(s) + pad
    ensures StripRight(s) == [] || !IsSpace(StripRight(s)[|StripRight(s)| - 1])
  {
    if s != [] && IsSpace(s[|s| - 1]) {
      var rest := StripRightShape(s[..|s| - 1]);
      pad := rest + [s[|s| - 1]];
      assert s == s[..|s| - 1] + [s[|s| - 1]];
    } else {
      pad := [];
    }
  }

  /** Stripping first does not change the words. */
  lemma SplitStrip(s: string)
    ensures Split(Strip(s)) == Split(s)
    ensures Strip(s) == [] <==> Split(s) == []
  {
    var left := StripLeftShape(s);
    SplitPad(left, StripLeft(s));
    var right := StripRightShape(StripLeft(s));
    SplitTrailing(Strip(s), right);
    if Strip(s) != [] {
      assert Strip(s)[0] == StripLeft(s)[0];
    }
  }

  lemma StripOfWord(w: string)
    requires NoSpace(w)
    ensures Strip(w) == w
  {
  }

  /** The first word, with what surrounds it. */
  lemma {:induction false} SplitFirst(s: string) returns (pad: string, rest: string)
    requires Split(s) != []
    ensures AllSpace(pad) && Split(s)[0] != [] && NoSpace(Split(s)[0])
    ensures s == pad + Split(s)[0] + rest
    ensures (rest == [] || IsSpace(rest[0])) && Split(rest) == Split(s)[1..]
    decreases |s|
  {
    if IsSpace(s[0]) {
      var p, r := SplitFirst(s[1..]);
      pad, rest := [s[0]] + p, r;
      assert s == [s[0]] + s[1..];
    } else {
      var n := WordLength(s);
      pad, rest := [], s[n..];
      assert s == s[..n] + s[n..];
    }
  }

  /** t is what remains of s without the blanks around it. */
  ghost predicate StripsTo(s: string, t: string) {
    && (exists a: string, b: string :: AllSpace(a) && AllSpace(b) && s == a + t + b)
    && (t != [] ==> !IsSpace(t[0]) && !IsSpace(t[|t| - 1]))
  }

  lemma {:induction false} StripLeftOf(pad: string, s: string)
    requires AllSpace(pad) && (s != [] ==> !IsSpace(s[0]))
    ensures StripLeft(pad + s) == s
  {
    if pad == [] {
      assert pad + s == s;
    } else {
      assert (pad + s)[1..] == pad[1..] + s;
      StripLeftOf(pad[1..], s);
    }
  }

  lemma {:induction false} StripRightOf(s: string, pad: string)
    requires AllSpace(pad) && (s != [] ==> !IsSpace(s[|s| - 1]))
    ensures StripRight(s + pad) == s
  {
    if pad == [] {
      assert s + pad == s;
    } else {
      assert (s + pad)[..|s + pad| - 1] == s + pad[..|pad| - 1];
      StripRightOf(s, pad[..|pad| - 1]);
    }
  }

  /** Stripping takes away all the blanks at both ends and nothing else. */
  lemma StripExactly(s: string, t: string)
    ensures StripsTo(s, t) <==> t == Strip(s)
  {
    hide StripLeft, StripRight;
    var left := StripLeftShape(s);
    var right := StripRightShape(StripLeft(s));
    assert s == left + Strip(s) + right;
    if Strip(s) != [] { assert Strip(s)[0] == StripLeft(s)[0]; }
    if StripsTo(s, t) {
      var a: string, b: string :| AllSpace(a) && AllSpace(b) && s == a + t + b;
      if t == [] {
        assert s == (a + b) + "" && "" + "" == "";
        StripLeftOf(a + b, []);
        StripRightOf([], []);
      } else {
        assert s == a + (t + b) && (t + b)[0] == t[0];
        StripLeftOf(a, t + b);
        StripRightOf(t, b);
      }
    }
  }

  lemma {:induction false} NoWords(s: string)
    ensures Split(s) == [] <==> AllSpace(s)
  {
    if s == [] {
    } else if IsSpace(s[0]) {
      NoWords(s[1..]);
      assert s == [s[0]] + s[1..];
    }
  }
}
