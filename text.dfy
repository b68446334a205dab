/** Characters, lines and whitespace-delimited fields, as the log parser sees them. */
module Text {

  datatype Option<+T> = None | Some(value: T)

  /** Whitespace: the characters for which Python's str.isspace() holds. They are
      also the characters the regular-expression class \s matches and the ones
      str.strip() removes. */
  predicate IsSpace(c: char) {
    var n := c as int;
    (9 <= n <= 13) || (28 <= n <= 32) || n == 0x85 || n == 0xA0 || n == 0x1680
    || (0x2000 <= n <= 0x200A) || n == 0x2028 || n == 0x2029 || n == 0x202F
    || n == 0x205F || n == 0x3000
  }

  predicate IsBlank(s: string) {
    forall i :: 0 <= i < |s| ==> IsSpace(s[i])
  }

  predicate NoSpace(s: string) {
    forall i :: 0 <= i < |s| ==> !IsSpace(s[i])
  }

  /** Neither starts nor ends with whitespace. */
  predicate IsStripped(s: string) {
    s == [] || (!IsSpace(s[0]) && !IsSpace(s[|s| - 1]))
  }

  function TrimStart(s: string): (r: string)
    ensures |r| <= |s| && r == s[|s| - |r|..]
    ensures forall i :: 0 <= i < |s| - |r| ==> IsSpace(s[i])
    ensures r == [] || !IsSpace(r[0])
  {
    if |s| > 0 && IsSpace(s[0]) then TrimStart(s[1..]) else s
  }

  function TrimEnd(s: string): (r: string)
    ensures |r| <= |s| && r == s[..|r|]
    ensures forall i :: |r| <= i < |s| ==> IsSpace(s[i])
    ensures r == [] || !IsSpace(r[|r| - 1])
  {
    if |s| > 0 && IsSpace(s[|s| - 1]) then TrimEnd(s[..|s| - 1]) else s
  }

  /** Python's str.strip(): the result neither starts nor ends with whitespace,
      and it is empty exactly when s is blank. */
  function Strip(s: string): (r: string)
    ensures IsStripped(r)
    ensures r == [] <==> IsBlank(s)
  {
    var t := TrimStart(s);
    var r := TrimEnd(t);
    assert r == [] ==> s == s[..|s| - |t|] + t && t == t[|r|..];
    r
  }

  /** What str.strip() removes is a blank margin on each side. */
  lemma StripMargins(s: string) returns (i: nat)
    ensures i + |Strip(s)| <= |s| && Strip(s) == s[i..i + |Strip(s)|]
    ensures forall j :: 0 <= j < i ==> IsSpace(s[j])
    ensures forall j :: i + |Strip(s)| <= j < |s| ==> IsSpace(s[j])
  {
    var t := TrimStart(s);
    var r := TrimEnd(t);
    i := |s| - |t|;
    assert Strip(s) == r;
    SliceOfSlice(s, i, |r|);
  }

  lemma SliceOfSlice<T>(s: seq<T>, i: nat, n: nat)
    requires i + n <= |s|
    ensures s[i..][..n] == s[i..i + n] && s[i..][n..] == s[i + n..]
  {
  }

  /** A string that does not start with whitespace keeps its first character
      when stripped, and is not blank. */
  lemma StripKeepsFirst(s: string)
    requires |s| > 0 && !IsSpace(s[0])
    ensures |Strip(s)| > 0 && Strip(s)[0] == s[0]
  {
    var r := Strip(s);
    assert !IsBlank(s);
    var i := StripMargins(s);
    assert i == 0;
  }

  function LowerChar(c: char): char {
    if 'A' <= c <= 'Z' then (c as int + 32) as char else c
  }

  /** str.lower() on ASCII letters. */
  function Lower(s: string): (r: string)
    ensures |r| == |s|
    ensures forall i :: 0 <= i < |s| ==> r[i] == LowerChar(s[i])
  {
    if s == [] then [] else [LowerChar(s[0])] + Lower(s[1..])
  }

  /** The Python test s.startswith(prefix). */
  predicate StartsWith(s: string, prefix: string) {
    |prefix| <= |s| && forall i :: 0 <= i < |prefix| ==> s[i] == prefix[i]
  }

  predicate OccursAt(s: string, part: string, i: int) {
    0 <= i <= |s| - |part| && s[i..i + |part|] == part
  }

  /** The Python test `part in s`. */
  predicate Contains(s: string, part: string) {
    exists i :: 0 <= i <= |s| - |part| && OccursAt(s, part, i)
  }

  /** The lines of a text, cut at each '\n' (which belongs to no line). A text
      without '\n' is one line, so the empty text is one empty line. */
  function SplitLines(s: string): (lines: seq<string>)
    ensures |lines| > 0
    ensures forall i :: 0 <= i < |lines| ==> '\n' !in lines[i]
    decreases |s|
  {
    if s == [] then
      [[]]
    else
      var rest := SplitLines(s[1..]);
      if s[0] == '\n' then [[]] + rest else [[s[0]] + rest[0]] + rest[1..]
  }

  /** The inverse of SplitLines: the lines with a '\n' between each two. */
  function JoinLines(lines: seq<string>): string
    requires |lines| > 0
  {
    if |lines| == 1 then lines[0] else lines[0] + "\n" + JoinLines(lines[1..])
  }

  /** Joining the lines of a text gives the text back. */
  lemma {:induction false} JoinSplitLines(s: string)
    ensures JoinLines(SplitLines(s)) == s
    decreases |s|
  {
    if s != [] {
      var rest := SplitLines(s[1..]);
      JoinSplitLines(s[1..]);
      if s[0] == '\n' {
        assert SplitLines(s) == [[]] + rest;
        assert JoinLines(SplitLines(s)) == "\n" + JoinLines(rest);
      } else if |rest| == 1 {
        assert SplitLines(s) == [[s[0]] + rest[0]];
      } else {
        var lines := SplitLines(s);
        assert lines == [[s[0]] + rest[0]] + rest[1..];
        assert lines[1..] == rest[1..];
        assert JoinLines(rest) == rest[0] + "\n" + JoinLines(rest[1..]);
      }
    }
  }

  /** Splitting a text that starts with a line a (no '\n' in a) gives a prepended
      to the first line of what follows. */
  lemma {:induction false} SplitLinesAppend(a: string, t: string)
    requires '\n' !in a
    ensures SplitLines(a + t) == [a + SplitLines(t)[0]] + SplitLines(t)[1..]
    decreases |a|
  {
    if a != [] {
      assert (a + t)[1..] == a[1..] + t;
      assert a[0] in a;
      SplitLinesAppend(a[1..], t);
      assert [a[0]] + (a[1..] + SplitLines(t)[0]) == a + SplitLines(t)[0];
    } else {
      assert a + t == t;
      assert a + SplitLines(t)[0] == SplitLines(t)[0];
      assert SplitLines(t) == [SplitLines(t)[0]] + SplitLines(t)[1..];
    }
  }

  /** Splitting joined lines gives the lines back. */
  lemma {:induction false} SplitJoinLines(lines: seq<string>)
    requires |lines| > 0
    requires forall i :: 0 <= i < |lines| ==> '\n' !in lines[i]
    ensures SplitLines(JoinLines(lines)) == lines
    decreases |lines|
  {
    if |lines| == 1 {
      SplitLinesAppend(lines[0], []);
      assert lines[0] + [] == lines[0];
    } else {
      var t := "\n" + JoinLines(lines[1..]);
      SplitLinesAppend(lines[0], t);
      SplitJoinLines(lines[1..]);
      assert t[1..] == JoinLines(lines[1..]);
      assert SplitLines(t) == [[]] + lines[1..];
      assert lines[0] + [] == lines[0];
      assert lines[0] + "\n" + JoinLines(lines[1..]) == lines[0] + t;
    }
  }

  predicate IsDigit(c: char) {
    '0' <= c <= '9'
  }

  /** The regular expression \d+ over ASCII digits. */
  predicate IsDigits(s: string) {
    |s| > 0 && forall i :: 0 <= i < |s| ==> IsDigit(s[i])
  }

  /** int(s) for a string of decimal digits. */
  function DigitsValue(s: string): nat
    requires forall i :: 0 <= i < |s| ==> IsDigit(s[i])
  {
    if s == [] then 0
    else
      assert IsDigit(s[|s| - 1]);
      10 * DigitsValue(s[..|s| - 1]) + (s[|s| - 1] as int - '0' as int)
  }

  /** str(n): the decimal numeral of n, without leading zeros. */
  function NatDigits(n: nat): (s: string)
    ensures IsDigits(s)
    ensures n >= 10 ==> s[0] != '0'
  {
    if n < 10 then [('0' as int + n) as char]
    else NatDigits(n / 10) + [('0' as int + n % 10) as char]
  }

  /** Reading back the numeral of n gives n. */
  lemma {:induction false} DigitsValueOfNatDigits(n: nat)
    ensures DigitsValue(NatDigits(n)) == n
  {
    if n >= 10 {
      var s := NatDigits(n);
      assert s[..|s| - 1] == NatDigits(n / 10);
      DigitsValueOfNatDigits(n / 10);
    }
  }

  /** The length of the longest prefix of s whose characters are all whitespace
      (space == true) or all non-whitespace (space == false). */
  function RunLength(s: string, space: bool): (n: nat)
    ensures n <= |s|
    ensures forall i :: 0 <= i < n ==> IsSpace(s[i]) == space
    ensures n < |s| ==> IsSpace(s[n]) != space
  {
    if s != [] && IsSpace(s[0]) == space then 1 + RunLength(s[1..], space) else 0
  }

  /** str.split() with no argument: the maximal runs of non-whitespace, in order. */
  function Tokens(s: string): (ts: seq<string>)
    ensures forall i :: 0 <= i < |ts| ==> ts[i] != [] && NoSpace(ts[i])
    decreases |s|
  {
    var w := RunLength(s, true);
    if w == |s| then []
    else
      var t := s[w..];
      var k := RunLength(t, false);
      [t[..k]] + Tokens(t[k..])
  }

  /** One step of the regular expression \S+\s+ (both greedy) at the start of s:
      the field matched by \S+, and the text after the whitespace. */
  function Field(s: string): (r: Option<(string, string)>)
    ensures r.Some? <==> |s| > 0 && !IsSpace(s[0]) && !NoSpace(s)
    ensures r.Some? ==> r.value.0 != [] && NoSpace(r.value.0)
  {
    var k := RunLength(s, false);
    if k == 0 || k == |s| then
      assert k == |s| ==> NoSpace(s);
      None
    else
      var w := RunLength(s[k..], true);
      var rest := s[k + w..];
      assert s[k..][..w] == s[k..k + w];
      Some((s[..k], rest))
  }

  /** The first n steps of \S+\s+ at the start of s: n fields and the remainder. */
  function TakeFields(s: string, n: nat): (r: Option<(seq<string>, string)>)
    ensures r.Some? ==> |r.value.0| == n
    ensures r.Some? ==> forall i :: 0 <= i < n ==> r.value.0[i] != [] && NoSpace(r.value.0[i])
    decreases n
  {
    if n == 0 then Some(([], s))
    else
      var first := Field(s);
      if first.None? then None
      else
        var others := TakeFields(first.value.1, n - 1);
        if others.None? then None
        else Some(([first.value.0] + others.value.0, others.value.1))
  }

  /** The tokens of a text are those of the text without its leading whitespace. */
  lemma TokensSkipSpace(s: string)
    ensures Tokens(s) == Tokens(s[RunLength(s, true)..])
  {
    var w := RunLength(s, true);
    var t := s[w..];
    assert RunLength(t, true) == 0;
    assert t[0..] == t;
  }

  /** " ".join(ts): the words with one space between each two. */
  function Unwords(ts: seq<string>): string
    decreases |ts|
  {
    if ts == [] then [] else if |ts| == 1 then ts[0] else ts[0] + " " + Unwords(ts[1..])
  }

  /** A word, one whitespace character and a non-empty stripped text: one
      \S+\s+ step takes off exactly the word and the whitespace. */
  lemma FieldOfWord(t: string, c: char, u: string)
    requires t != [] && NoSpace(t) && IsSpace(c) && u != [] && IsStripped(u)
    ensures Field(t + [c] + u).Some?
    ensures Field(t + [c] + u).value.0 == t && Field(t + [c] + u).value.1 == u
  {
    var s := t + [c] + u;
    var k := RunLength(s, false);
    assert s[|t|] == c;
    assert forall i :: 0 <= i < |t| ==> s[i] == t[i];
    assert k == |t|;
    assert s[k..] == [c] + u;
    var w := RunLength(s[k..], true);
    assert s[k..][1] == u[0];
    assert w == 1;
    FieldSplit(s, k, w);
    assert s[..k] == t;
    assert s[k..][w..] == u;
  }

  /** str.split() undoes " ".join on words without whitespace, and the joined
      text is stripped. */
  lemma {:induction false} TokensUnwords(ts: seq<string>)
    requires forall i :: 0 <= i < |ts| ==> ts[i] != [] && NoSpace(ts[i])
    ensures IsStripped(Unwords(ts)) && (ts != [] ==> Unwords(ts) != [])
    ensures Tokens(Unwords(ts)) == ts
    decreases |ts|
  {
    if |ts| <= 1 {
      TokensUnwordsShort(ts);
    } else {
      var t, u := ts[0], Unwords(ts[1..]);
      TokensUnwords(ts[1..]);
      TokensCons(t, ' ', u);
      UnwordsCons(ts);
    }
  }

  lemma TokensUnwordsShort(ts: seq<string>)
    requires |ts| <= 1
    requires forall i :: 0 <= i < |ts| ==> ts[i] != [] && NoSpace(ts[i])
    ensures IsStripped(Unwords(ts)) && (ts != [] ==> Unwords(ts) != [])
    ensures Tokens(Unwords(ts)) == ts
  {
    if ts == [] {
      assert Tokens([]) == [];
    } else {
      OneToken(ts[0]);
    }
  }

  lemma UnwordsCons(ts: seq<string>)
    requires |ts| > 1
    ensures Unwords(ts) == ts[0] + [' '] + Unwords(ts[1..])
    ensures ts == [ts[0]] + ts[1..]
  {
  }

  /** The tokens of a word, a whitespace character and a non-empty stripped
      text: the word, then the text's tokens. */
  lemma TokensCons(t: string, c: char, u: string)
    requires t != [] && NoSpace(t) && IsSpace(c) && u != [] && IsStripped(u)
    ensures IsStripped(t + [c] + u)
    ensures Tokens(t + [c] + u) == [t] + Tokens(u)
  {
    var s := t + [c] + u;
    FieldOfWord(t, c, u);
    assert s[|s| - 1] == u[|u| - 1];
    FieldTokens(s);
  }

  /** Words: non-empty and without whitespace. */
  predicate Words(ts: seq<string>) {
    forall i :: 0 <= i < |ts| ==> ts[i] != [] && NoSpace(ts[i])
  }

  /** Joining non-empty stripped texts gives a non-empty stripped text. */
  lemma {:induction false} UnwordsStripped(ts: seq<string>)
    requires |ts| > 0
    requires forall i :: 0 <= i < |ts| ==> ts[i] != [] && IsStripped(ts[i])
    ensures Unwords(ts) != [] && IsStripped(Unwords(ts))
    decreases |ts|
  {
    if |ts| > 1 {
      UnwordsStripped(ts[1..]);
      UnwordsCons(ts);
      var u := Unwords(ts[1..]);
      assert (ts[0] + [' '] + u)[|ts[0] + [' '] + u| - 1] == u[|u| - 1];
    }
  }

  /** n steps of \S+\s+ over n words and a stripped remainder, joined with
      spaces, take off exactly the words. */
  lemma {:induction false} TakeFieldsUnwords(ts: seq<string>, rest: string)
    requires Words(ts) && rest != [] && IsStripped(rest)
    ensures TakeFields(Unwords(ts + [rest]), |ts|).Some?
    ensures TakeFields(Unwords(ts + [rest]), |ts|).value.0 == ts
    ensures TakeFields(Unwords(ts + [rest]), |ts|).value.1 == rest
    decreases |ts|
  {
    if ts == [] {
      assert ts + [rest] == [rest];
    } else {
      var tail := ts[1..] + [rest];
      TakeFieldsUnwords(ts[1..], rest);
      UnwordsStripped(tail);
      TakeFieldsWord(ts[0], ' ', Unwords(tail), |ts|);
      UnwordsSnoc(ts, rest);
    }
  }

  lemma UnwordsSnoc(ts: seq<string>, rest: string)
    requires |ts| > 0
    ensures Unwords(ts + [rest]) == ts[0] + [' '] + Unwords(ts[1..] + [rest])
    ensures ts == [ts[0]] + ts[1..]
  {
    assert ts + [rest] == [ts[0]] + (ts[1..] + [rest]);
    UnwordsCons(ts + [rest]);
  }

  /** A word and a whitespace character in front of a stripped text add one
      field in front. */
  lemma TakeFieldsWord(t: string, c: char, u: string, n: nat)
    requires t != [] && NoSpace(t) && IsSpace(c) && u != [] && IsStripped(u) && n > 0
    ensures TakeFields(t + [c] + u, n).Some? <==> TakeFields(u, n - 1).Some?
    ensures TakeFields(t + [c] + u, n).Some? ==>
              && TakeFields(t + [c] + u, n).value.0 == [t] + TakeFields(u, n - 1).value.0
              && TakeFields(t + [c] + u, n).value.1 == TakeFields(u, n - 1).value.1
  {
    FieldOfWord(t, c, u);
    TakeFieldsStep(t + [c] + u, n, t, u);
  }

  /** Stripping a stripped text leaves it as it is. */
  lemma StripStripped(s: string)
    requires IsStripped(s)
    ensures Strip(s) == s
  {
  }

  /** On a stripped text, one \S+\s+ step succeeds exactly when there are at least
      two tokens, and then it takes off the first token. */
  lemma FieldTokens(s: string)
    requires s != [] && IsStripped(s)
    ensures Field(s).Some? <==> |Tokens(s)| > 1
    ensures Field(s).None? ==> Tokens(s) == [s]
    ensures Field(s).Some? ==>
      && Field(s).value.1 != []
      && IsStripped(Field(s).value.1)
      && Tokens(s) == [Field(s).value.0] + Tokens(Field(s).value.1)
  {
    if RunLength(s, false) == |s| {
      WordTokens(s);
    } else {
      FieldTokensSome(s);
    }
  }

  /** A text without whitespace is one token, and no \S+\s+ step matches it. */
  lemma WordTokens(s: string)
    requires s != [] && RunLength(s, false) == |s|
    ensures Field(s).None? && Tokens(s) == [s]
  {
    TokensOfWord(s);
    assert s[..|s|] == s;
    assert Tokens(s[|s|..]) == [];
  }

  lemma FieldTokensSome(s: string)
    requires s != [] && IsStripped(s) && RunLength(s, false) < |s|
    ensures Field(s).Some? && |Tokens(s)| > 1
    ensures Field(s).value.1 != [] && IsStripped(Field(s).value.1)
    ensures Tokens(s) == [Field(s).value.0] + Tokens(Field(s).value.1)
  {
    var k := RunLength(s, false);
    var w := RunLength(s[k..], true);
    FieldSplit(s, k, w);
    FieldRest(s, k, w);
    TokensOfWord(s);
    TokensSkipSpace(s[k..]);
    TokensOfWord(s[k..][w..]);
  }

  /** On a stripped text, what follows the first field and its whitespace is a
      non-empty stripped text. */
  lemma FieldRest(s: string, k: nat, w: nat)
    requires s != [] && IsStripped(s) && k == RunLength(s, false) < |s|
    requires w == RunLength(s[k..], true)
    ensures w < |s[k..]| && s[k..][w..] != [] && IsStripped(s[k..][w..])
  {
    var t := s[k..];
    assert IsSpace(t[|t| - 1]) == IsSpace(s[|s| - 1]);
    assert t[w..][|t[w..]| - 1] == s[|s| - 1];
  }

  /** Field(s) when s starts with a word of length k followed by w whitespace
      characters. */
  lemma FieldSplit(s: string, k: nat, w: nat)
    requires s != [] && !IsSpace(s[0]) && k == RunLength(s, false) < |s|
    requires w == RunLength(s[k..], true)
    ensures Field(s).Some? && Field(s).value.0 == s[..k] && Field(s).value.1 == s[k..][w..]
  {
    assert k != 0;
    assert s[k + w..] == s[k..][w..];
  }

  /** The tokens of a text that starts with a non-whitespace character: its
      leading run, then the tokens of what follows. */
  lemma TokensOfWord(s: string)
    requires s != [] && !IsSpace(s[0])
    ensures Tokens(s) == [s[..RunLength(s, false)]] + Tokens(s[RunLength(s, false)..])
  {
    assert RunLength(s, true) == 0;
    assert s[0..] == s;
  }

  /** On a stripped text, n >= 1 steps of \S+\s+ succeed exactly when the text has
      more than n tokens; the fields are the first n tokens and the remainder is a
      stripped text holding the others. */
  lemma {:induction false} TakeFieldsTokens(s: string, n: nat)
    requires IsStripped(s) && n > 0
    ensures TakeFields(s, n).Some? <==> |Tokens(s)| > n
    ensures TakeFields(s, n).Some? ==> FieldsOf(s, n, TakeFields(s, n).value.0, TakeFields(s, n).value.1)
    decreases n, 1
  {
    if s == [] {
      assert Tokens(s) == [];
      assert Field(s).None?;
    } else if Field(s).None? {
      FieldTokens(s);
    } else if n == 1 {
      TakeOneField(s);
    } else {
      TakeMoreFields(s, n);
    }
  }

  /** fields and rest are the first n tokens of s and the rest of them. */
  predicate FieldsOf(s: string, n: nat, fields: seq<string>, rest: string) {
    && rest != [] && IsStripped(rest)
    && n <= |Tokens(s)| && fields == Tokens(s)[..n] && Tokens(rest) == Tokens(s)[n..]
  }

  lemma TakeOneField(s: string)
    requires s != [] && IsStripped(s) && Field(s).Some?
    ensures |Tokens(s)| > 1
    ensures TakeFields(s, 1).Some? && FieldsOf(s, 1, TakeFields(s, 1).value.0, TakeFields(s, 1).value.1)
  {
    FieldTokens(s);
    var f, rest := Field(s).value.0, Field(s).value.1;
    assert TakeFields(rest, 0) == Some(([], rest));
    assert [f] + [] == [f];
    assert TakeFields(s, 1) == Some(([f], rest));
  }

  lemma {:induction false} TakeMoreFields(s: string, n: nat)
    requires s != [] && IsStripped(s) && n > 1 && Field(s).Some?
    ensures TakeFields(s, n).Some? <==> |Tokens(s)| > n
    ensures TakeFields(s, n).Some? ==> FieldsOf(s, n, TakeFields(s, n).value.0, TakeFields(s, n).value.1)
    decreases n, 0
  {
    var f, rest := Field(s).value.0, Field(s).value.1;
    FieldTokens(s);
    TakeFieldsTokens(rest, n - 1);
    TakeFieldsStep(s, n, f, rest);
    if TakeFields(rest, n - 1).Some? {
      ConsSlices(f, Tokens(rest), n);
    }
  }

  /** TakeFields unfolded once. */
  lemma TakeFieldsStep(s: string, n: nat, f: string, rest: string)
    requires n > 0 && Field(s) == Some((f, rest))
    ensures TakeFields(s, n).Some? <==> TakeFields(rest, n - 1).Some?
    ensures TakeFields(s, n).Some? ==>
      TakeFields(s, n).value == ([f] + TakeFields(rest, n - 1).value.0, TakeFields(rest, n - 1).value.1)
  {
  }

  lemma ConsSlices<T>(x: T, t: seq<T>, n: nat)
    requires 1 <= n <= |t| + 1
    ensures ([x] + t)[..n] == [x] + t[..n - 1]
    ensures ([x] + t)[n..] == t[n - 1..]
  {
  }

  /** A stripped, non-empty text is one token exactly when it has no whitespace. */
  lemma OneToken(s: string)
    requires s != [] && IsStripped(s)
    ensures |Tokens(s)| == 1 <==> NoSpace(s)
    ensures NoSpace(s) ==> Tokens(s) == [s]
  {
    FieldTokens(s);
    if Field(s).Some? {
      var (f, rest) := Field(s).value;
      FieldTokens(s);
    }
  }
}
