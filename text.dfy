/**
 * The parts of Python's `str` type the pipeline relies on, restricted to ASCII:
 * case mapping, whitespace splitting and trimming, searching, splitting on a
 * separator, replacing, joining, and decimal rendering of integers.
 */
module Text {
  import opened Wrappers

  /**
   * The ASCII characters Python treats as whitespace in `split()`, `strip()`
   * and `\s`: tab, line feed, vertical tab, form feed, carriage return, the
   * separators `\x1c` to `\x1f`, and the space.
   */
  const Whitespace: set<char> := set c: char | '\t' <= c <= '\r' || '\U{001C}' <= c <= ' '

  predicate IsSpace(c: char) { c in Whitespace }
  predicate IsDigit(c: char) { '0' <= c <= '9' }
  predicate IsUpper(c: char) { 'A' <= c <= 'Z' }
  predicate IsLowerLetter(c: char) { 'a' <= c <= 'z' }
  predicate IsLetter(c: char) { IsUpper(c) || IsLowerLetter(c) }

  /** `str.isdigit()`: non-empty and made of digits only. */
  predicate IsDigits(s: string) { |s| > 0 && forall i :: 0 <= i < |s| ==> IsDigit(s[i]) }

  function LowerChar(c: char): char { if IsUpper(c) then (c as int + 32) as char else c }
  function UpperChar(c: char): char { if IsLowerLetter(c) then (c as int - 32) as char else c }

  /** `str.lower()`. */
  function Lower(s: string): (r: string)
    ensures |r| == |s|
    ensures forall i :: 0 <= i < |s| ==> r[i] == LowerChar(s[i])
  {
    seq(|s|, i requires 0 <= i < |s| => LowerChar(s[i]))
  }

  lemma LowerIdempotent(s: string)
    ensures Lower(Lower(s)) == Lower(s)
  {
  }

  lemma LowerAppend(a: string, b: string)
    ensures Lower(a + b) == Lower(a) + Lower(b)
  {
  }

  // ---------------------------------------------------------------- trimming

  /** `s.lstrip(cs)`: drops the longest prefix made of characters of `cs`. */
  function StripLeftOf(s: string, cs: set<char>): (r: string)
    ensures |r| <= |s| && r == s[|s| - |r|..]
    ensures r == [] || r[0] !in cs
    ensures forall i :: 0 <= i < |s| - |r| ==> s[i] in cs
    decreases |s|
  {
    if s != [] && s[0] in cs then StripLeftOf(s[1..], cs) else s
  }

  /** `s.rstrip(cs)`: drops the longest suffix made of characters of `cs`. */
  function StripRightOf(s: string, cs: set<char>): (r: string)
    ensures |r| <= |s| && r == s[..|r|]
    ensures r == [] || r[|r| - 1] !in cs
    ensures forall i :: |r| <= i < |s| ==> s[i] in cs
    decreases |s|
  {
    if s != [] && s[|s| - 1] in cs then StripRightOf(s[..|s| - 1], cs) else s
  }

  /** `s.strip(cs)`. */
  function StripOf(s: string, cs: set<char>): string
  {
    StripRightOf(StripLeftOf(s, cs), cs)
  }

  /** `s.strip()`: neither end of the result is whitespace. */
  function Strip(s: string): (r: string)
    ensures |r| <= |s|
    ensures r == [] || (!IsSpace(r[0]) && !IsSpace(r[|r| - 1]))
    decreases |s|
  {
    if s != [] && IsSpace(s[0]) then Strip(s[1..])
    else if s != [] && IsSpace(s[|s| - 1]) then Strip(s[..|s| - 1])
    else s
  }

  /** `strip()` is `lstrip()` followed by `rstrip()`. */
  lemma {:induction false} StripIsStripOf(s: string)
    ensures Strip(s) == StripOf(s, Whitespace)
    decreases |s|
  {
    if s != [] && IsSpace(s[0]) {
      StripIsStripOf(s[1..]);
    } else if s != [] && IsSpace(s[|s| - 1]) {
      StripIsStripOf(s[..|s| - 1]);
    }
  }

  lemma StripShape(s: string)
    ensures |Strip(s)| <= |s|
    ensures Strip(s) == [] || (!IsSpace(Strip(s)[0]) && !IsSpace(Strip(s)[|Strip(s)| - 1]))
    ensures Strip(s) == [] <==> forall i :: 0 <= i < |s| ==> IsSpace(s[i])
  {
    StripIsStripOf(s);
    var l := StripLeftOf(s, Whitespace);
    var r := StripRightOf(l, Whitespace);
    if r != [] {
      assert r[0] == l[0];
    }
    if r == [] {
      forall i | 0 <= i < |s| ensures IsSpace(s[i]) {
        if i >= |s| - |l| {
          assert s[i] == l[i - (|s| - |l|)];
        }
      }
    }
  }

  /** Text that neither starts nor ends with whitespace is its own `strip()`. */
  lemma StripUnchanged(s: string)
    requires s == [] || (!IsSpace(s[0]) && !IsSpace(s[|s| - 1]))
    ensures Strip(s) == s
  {
  }

  /** Dropping leading characters of `cs` in front of text that does not start with one. */
  lemma {:induction false} StripLeftOfPadded(a: string, x: string, cs: set<char>)
    requires forall i :: 0 <= i < |a| ==> a[i] in cs
    requires x != [] && x[0] !in cs
    ensures StripLeftOf(a + x, cs) == x
    decreases |a|
  {
    if a != [] {
      assert (a + x)[1..] == a[1..] + x;
      StripLeftOfPadded(a[1..], x, cs);
    } else {
      assert a + x == x;
    }
  }

  /** Dropping trailing characters of `cs` after text that does not end with one. */
  lemma {:induction false} StripRightOfPadded(x: string, b: string, cs: set<char>)
    requires forall i :: 0 <= i < |b| ==> b[i] in cs
    requires x != [] && x[|x| - 1] !in cs
    ensures StripRightOf(x + b, cs) == x
    decreases |b|
  {
    if b != [] {
      assert (x + b)[..|x + b| - 1] == x + b[..|b| - 1];
      StripRightOfPadded(x, b[..|b| - 1], cs);
    } else {
      assert x + b == x;
    }
  }

  /** Stripping whitespace around text with non-space ends gives the text back. */
  lemma StripPadded(a: string, x: string, b: string)
    requires forall i :: 0 <= i < |a| ==> IsSpace(a[i])
    requires forall i :: 0 <= i < |b| ==> IsSpace(b[i])
    requires x != [] && !IsSpace(x[0]) && !IsSpace(x[|x| - 1])
    ensures Strip(a + x + b) == x
  {
    var s := a + (x + b);
    assert a + x + b == s;
    assert (x + b)[0] == x[0];
    StripLeftOfPadded(a, x + b, Whitespace);
    StripRightOfPadded(x, b, Whitespace);
    StripIsStripOf(s);
  }

  /** `strip()` is idempotent. */
  lemma StripIdempotent(s: string)
    ensures Strip(Strip(s)) == Strip(s)
  {
    StripShape(s);
    StripUnchanged(Strip(s));
  }

  /** `strip()` returns a slice of its input. */
  lemma StripIsSlice(s: string) returns (a: nat)
    ensures a + |Strip(s)| <= |s| && Strip(s) == s[a..a + |Strip(s)|]
  {
    StripIsStripOf(s);
    var l := StripLeftOf(s, Whitespace);
    var r := StripRightOf(l, Whitespace);
    a := |s| - |l|;
    assert r == l[..|r|] && l == s[a..];
  }

  // ---------------------------------------------------------------- words

  /** A token of `str.split()`: non-empty and free of whitespace. */
  predicate IsWord(w: string) { |w| > 0 && forall i :: 0 <= i < |w| ==> !IsSpace(w[i]) }

  /** Length of the run of non-whitespace characters that starts `s`. */
  function TokenLength(s: string): (n: nat)
    ensures n <= |s|
    ensures forall i :: 0 <= i < n ==> !IsSpace(s[i])
    ensures n < |s| ==> IsSpace(s[n])
  {
    if s == [] || IsSpace(s[0]) then 0 else 1 + TokenLength(s[1..])
  }

  /** `str.split()` with no argument: the maximal runs of non-whitespace characters, in order. */
  function Words(s: string): (ws: seq<string>)
    ensures forall i :: 0 <= i < |ws| ==> IsWord(ws[i])
    ensures |ws| <= |s|
    decreases |s|
  {
    if s == [] then []
    else if IsSpace(s[0]) then Words(s[1..])
    else
      var n := TokenLength(s);
      [s[..n]] + Words(s[n..])
  }

  /** `len(s.split())`, the word count used by every module that counts words. */
  function WordCount(s: string): nat
  {
    |Words(s)|
  }

  lemma {:induction false} WordsOfBlank(s: string)
    requires forall i :: 0 <= i < |s| ==> IsSpace(s[i])
    ensures Words(s) == []
    decreases |s|
  {
    if s != [] {
      WordsOfBlank(s[1..]);
    }
  }

  /** A word followed by whitespace (or nothing) is one token. */
  lemma {:induction false} TokenLengthOfWord(w: string, rest: string)
    requires IsWord(w) && (rest == [] || IsSpace(rest[0]))
    ensures TokenLength(w + rest) == |w|
    decreases |w|
  {
    if |w| > 1 {
      assert (w + rest)[1..] == w[1..] + rest;
      TokenLengthOfWord(w[1..], rest);
    } else {
      assert (w + rest)[1..] == rest;
    }
  }

  /** Splitting a word followed by whitespace gives that word, then the words of the rest. */
  lemma WordsCons(w: string, rest: string)
    requires IsWord(w) && (rest == [] || IsSpace(rest[0]))
    ensures Words(w + rest) == [w] + Words(rest)
  {
    TokenLengthOfWord(w, rest);
    var s := w + rest;
    assert s[..|w|] == w && s[|w|..] == rest;
  }

  // ---------------------------------------------------------------- joining

  /** `sep.join(parts)`. */
  function Join(sep: string, parts: seq<string>): string
    decreases |parts|
  {
    if parts == [] then ""
    else if |parts| == 1 then parts[0]
    else parts[0] + sep + Join(sep, parts[1..])
  }

  lemma {:induction false} JoinLength(sep: string, parts: seq<string>)
    requires |parts| > 0
    ensures |Join(sep, parts)| >= |parts[0]|
    decreases |parts|
  {
  }

  /**
   * Joining words with any one whitespace character (a separator such as
   * `\x1f` included) and splitting again gives the words back.
   */
  lemma {:induction false} WordsOfJoinBy(ws: seq<string>, c: char)
    requires IsSpace(c)
    requires forall i :: 0 <= i < |ws| ==> IsWord(ws[i])
    ensures Words(Join([c], ws)) == ws
    decreases |ws|
  {
    if |ws| == 1 {
      WordsCons(ws[0], "");
      assert ws[0] + "" == ws[0];
    } else if |ws| > 1 {
      var rest := Join([c], ws[1..]);
      assert Join([c], ws) == ws[0] + ([c] + rest);
      assert Words([c] + rest) == ws[1..] by {
        WordsOfJoinBy(ws[1..], c);
        assert ([c] + rest)[1..] == rest;
      }
      WordsCons(ws[0], [c] + rest);
    }
  }

  /** Joining words with single spaces and splitting again gives the words back. */
  lemma WordsOfJoin(ws: seq<string>)
    requires forall i :: 0 <= i < |ws| ==> IsWord(ws[i])
    ensures Words(Join(" ", ws)) == ws
  {
    WordsOfJoinBy(ws, ' ');
  }

  /** `"a\x1fb".split()` gives two words: the unit separator is whitespace. */
  lemma UnitSeparatorSplits()
    ensures Words("a\U{001F}b") == ["a", "b"]
  {
    WordsOfJoinBy(["a", "b"], '\U{001F}');
    assert Join(['\U{001F}'], ["a", "b"]) == "a\U{001F}b";
  }

  // ---------------------------------------------------------------- searching

  predicate StartsWith(s: string, p: string) { |p| <= |s| && s[..|p|] == p }
  predicate EndsWith(s: string, p: string) { |p| <= |s| && s[|s| - |p|..] == p }

  /** A string that starts with `p + q` starts with `p`. */
  lemma StartsWithLonger(s: string, p: string, q: string)
    ensures StartsWith(s, p + q) ==> StartsWith(s, p)
  {
    if StartsWith(s, p + q) {
      assert s[..|p|] == s[..|p + q|][..|p|];
    }
  }

  /** `t in s` for strings. */
  predicate Contains(s: string, t: string)
    decreases |s|
  {
    StartsWith(s, t) || (s != [] && Contains(s[1..], t))
  }

  lemma {:induction false} ContainsAt(s: string, t: string, i: nat)
    requires i + |t| <= |s| && s[i..i + |t|] == t
    ensures Contains(s, t)
    decreases i
  {
    if i > 0 {
      assert s[1..][i - 1..i - 1 + |t|] == s[i..i + |t|];
      ContainsAt(s[1..], t, i - 1);
    }
  }

  lemma {:induction false} ContainsWitness(s: string, t: string) returns (i: nat)
    requires Contains(s, t)
    ensures i + |t| <= |s| && s[i..i + |t|] == t
    decreases |s|
  {
    if StartsWith(s, t) {
      i := 0;
    } else {
      var j := ContainsWitness(s[1..], t);
      assert s[1..][j..j + |t|] == s[j + 1..j + 1 + |t|];
      i := j + 1;
    }
  }

  /** An occurrence inside a slice is an occurrence in the whole text. */
  lemma ContainsInSlice(s: string, a: nat, b: nat, t: string)
    requires a <= b <= |s| && Contains(s[a..b], t)
    ensures Contains(s, t)
  {
    var u := s[a..b];
    var i := ContainsWitness(u, t);
    assert a + i + |t| <= |s|;
    forall k | 0 <= k < |t|
      ensures s[a + i..a + i + |t|][k] == t[k]
    {
      assert u[i + k] == s[a + i + k];
      assert u[i..i + |t|][k] == u[i + k];
    }
    ContainsAt(s, t, a + i);
  }

  /** A text free of `t` has no slice holding `t`. */
  lemma SliceFree(s: string, a: nat, b: nat, t: string)
    requires a <= b <= |s| && !Contains(s, t)
    ensures !Contains(s[a..b], t)
  {
    if Contains(s[a..b], t) {
      ContainsInSlice(s, a, b, t);
    }
  }

  lemma ContainsEmpty(s: string)
    ensures Contains(s, "")
  {
    assert StartsWith(s, "");
  }

  lemma ContainsSelf(s: string)
    ensures Contains(s, s)
  {
    assert StartsWith(s, s);
  }

  /** `s.find(t)` as an option: the first index where `t` occurs. */
  function IndexOf(s: string, t: string): (r: Option<nat>)
    ensures r.Some? ==> r.value + |t| <= |s|
    decreases |s|
  {
    if StartsWith(s, t) then Some(0)
    else if s == [] then None
    else match IndexOf(s[1..], t)
      case None => None
      case Some(i) => Some(i + 1)
  }

  /**
   * IndexOf finds an occurrence of `t`, the first one, and finds none exactly
   * when `t` does not occur.
   */
  lemma {:induction false} IndexOfSpec(s: string, t: string)
    ensures IndexOf(s, t).Some? ==> s[IndexOf(s, t).value..IndexOf(s, t).value + |t|] == t
    ensures IndexOf(s, t).Some? ==> forall j :: 0 <= j < IndexOf(s, t).value ==> !StartsWith(s[j..], t)
    ensures IndexOf(s, t).None? <==> !Contains(s, t)
    decreases |s|
  {
    if StartsWith(s, t) {
      assert s[0..|t|] == s[..|t|];
    } else if s != [] {
      IndexOfSpec(s[1..], t);
      assert forall j :: 1 <= j <= |s| ==> s[j..] == s[1..][j - 1..];
      match IndexOf(s[1..], t)
      case None =>
      case Some(i) =>
        assert s[1..][i..i + |t|] == s[i + 1..i + 1 + |t|];
    }
  }

  /** `s.rfind(c)`: the last index holding `c`, or -1. */
  function LastIndexOfChar(s: string, c: char): (r: int)
    ensures -1 <= r < |s|
    ensures r >= 0 ==> s[r] == c
    ensures forall j :: r < j < |s| ==> s[j] != c
    decreases |s|
  {
    if s == [] then -1
    else if s[|s| - 1] == c then |s| - 1
    else LastIndexOfChar(s[..|s| - 1], c)
  }

  /** `s.find(c)`: the first index holding `c`, or -1. */
  function IndexOfChar(s: string, c: char): (r: int)
    ensures -1 <= r < |s|
    ensures r >= 0 ==> s[r] == c
    ensures forall j :: 0 <= j < |s| && (r < 0 || j < r) ==> s[j] != c
    decreases |s|
  {
    if s == [] then -1
    else if s[0] == c then 0
    else
      var r := IndexOfChar(s[1..], c);
      if r < 0 then -1 else r + 1
  }

  // ---------------------------------------------------------------- splitting and replacing

  /** `s.split(sep)` for a non-empty separator (Python raises ValueError on an empty one). */
  function SplitOn(s: string, sep: string): (parts: seq<string>)
    requires |sep| > 0
    ensures |parts| >= 1
    decreases |s|, 1
  {
    match IndexOf(s, sep)
    case None => [s]
    case Some(i) => SplitAt(s, sep, i)
  }

  /** The split of `s` whose first separator starts at `i`. */
  function SplitAt(s: string, sep: string, i: nat): (parts: seq<string>)
    requires |sep| > 0 && i + |sep| <= |s|
    ensures |parts| >= 2
    decreases |s|, 0
  {
    [s[..i]] + SplitOn(s[i + |sep|..], sep)
  }

  /** Joining the pieces of a split with the separator gives back the original text. */
  lemma {:induction false} SplitJoin(s: string, sep: string)
    requires |sep| > 0
    ensures Join(sep, SplitOn(s, sep)) == s
    decreases |s|
  {
    var found := IndexOf(s, sep);
    if found.Some? {
      var i := found.value;
      var rest := s[i + |sep|..];
      assert SplitOn(s, sep) == SplitAt(s, sep, i);
      IndexOfSpec(s, sep);
      SplitJoin(rest, sep);
      JoinCons(sep, s[..i], SplitOn(rest, sep));
      Around(s, i, |sep|);
    }
  }

  lemma Around(s: string, i: nat, n: nat)
    requires i + n <= |s|
    ensures s == s[..i] + s[i..i + n] + s[i + n..]
  {
  }

  lemma JoinCons(sep: string, head: string, tail: seq<string>)
    requires tail != []
    ensures Join(sep, [head] + tail) == head + sep + Join(sep, tail)
  {
    assert ([head] + tail)[1..] == tail;
  }

  /** No piece of a split contains the separator. */
  lemma {:induction false} SplitPiecesFree(s: string, sep: string)
    requires |sep| > 0
    ensures forall k :: 0 <= k < |SplitOn(s, sep)| ==> !Contains(SplitOn(s, sep)[k], sep)
    decreases |s|
  {
    IndexOfSpec(s, sep);
    var found := IndexOf(s, sep);
    if found.Some? {
      var i := found.value;
      var rest := s[i + |sep|..];
      assert SplitOn(s, sep) == SplitAt(s, sep, i);
      SplitPiecesFree(rest, sep);
      PrefixBeforeFirst(s, sep, i);
    }
  }

  lemma {:induction false} PrefixBeforeFirst(s: string, t: string, i: nat)
    requires i <= |s| && |t| > 0
    requires forall j :: 0 <= j < i ==> !StartsWith(s[j..], t)
    ensures !Contains(s[..i], t)
    decreases i
  {
    if i > 0 {
      assert s[0..] == s;
      if |t| <= i {
        assert s[..i][..|t|] == s[..|t|];
      }
      assert s[..i][1..] == s[1..i] == s[1..][..i - 1];
      forall j | 0 <= j < i - 1 ensures !StartsWith(s[1..][j..], t) {
        assert s[1..][j..] == s[j + 1..];
      }
      PrefixBeforeFirst(s[1..], t, i - 1);
    } else {
      assert s[..i] == [];
    }
  }

  /** `s.replace(old, new)`: every non-overlapping occurrence, left to right. */
  function ReplaceAll(s: string, target: string, replacement: string): string
    requires |target| > 0
  {
    Join(replacement, SplitOn(s, target))
  }

  /**
   * `s.replace(c, d)` for single characters: every `c` becomes `d`, every other
   * character stays where it is, and no `c` is left when `d` differs from it.
   */
  function ReplaceChar(s: string, c: char, d: char): (r: string)
    ensures |r| == |s|
    ensures forall i :: 0 <= i < |s| && s[i] != c ==> r[i] == s[i]
    ensures forall i :: 0 <= i < |s| && s[i] == c ==> r[i] == d
    ensures c != d ==> forall i :: 0 <= i < |r| ==> r[i] != c
  {
    seq(|s|, i requires 0 <= i < |s| => if s[i] == c then d else s[i])
  }

  lemma ReplaceAbsent(s: string, target: string, replacement: string)
    requires |target| > 0 && !Contains(s, target)
    ensures ReplaceAll(s, target, replacement) == s
  {
    IndexOfSpec(s, target);
  }

  // ---------------------------------------------------------------- numbers

  function DigitChar(d: nat): char
    requires d < 10
  {
    ('0' as int + d) as char
  }

  function DigitValue(c: char): nat
    requires IsDigit(c)
  {
    c as int - '0' as int
  }

  /** `str(n)` for a natural number. */
  function NatToString(n: nat): (r: string)
    ensures |r| >= 1 && IsDigits(r)
    ensures |r| > 1 ==> r[0] != '0'
    decreases n
  {
    if n < 10 then [DigitChar(n)] else NatToString(n / 10) + [DigitChar(n % 10)]
  }

  /** `str(i)` for any integer. */
  function IntToString(i: int): string
  {
    if i < 0 then "-" + NatToString(-i) else NatToString(i)
  }

  /** `int(s)` for a string of decimal digits. */
  function DigitsValue(s: string): nat
    requires forall i :: 0 <= i < |s| ==> IsDigit(s[i])
    decreases |s|
  {
    if s == [] then 0 else DigitsValue(s[..|s| - 1]) * 10 + DigitValue(s[|s| - 1])
  }

  /** Reading back a rendered number gives the number. */
  lemma {:induction false} NatToStringRoundTrip(n: nat)
    ensures DigitsValue(NatToString(n)) == n
    decreases n
  {
    if n >= 10 {
      NatToStringRoundTrip(n / 10);
      var r := NatToString(n);
      assert r[..|r| - 1] == NatToString(n / 10);
    }
  }

  function Repeat(c: char, n: nat): (r: string)
    ensures |r| == n && forall i :: 0 <= i < n ==> r[i] == c
  {
    seq(n, i => c)
  }

  lemma {:induction false} LeadingZeros(z: nat, s: string)
    requires forall i :: 0 <= i < |s| ==> IsDigit(s[i])
    ensures DigitsValue(Repeat('0', z) + s) == DigitsValue(s)
    decreases |s|
  {
    var t := Repeat('0', z) + s;
    if s == [] {
      assert t == Repeat('0', z);
      ZerosValue(z);
    } else {
      assert t[..|t| - 1] == Repeat('0', z) + s[..|s| - 1];
      LeadingZeros(z, s[..|s| - 1]);
    }
  }

  lemma {:induction false} ZerosValue(z: nat)
    ensures DigitsValue(Repeat('0', z)) == 0
    decreases z
  {
    if z > 0 {
      assert Repeat('0', z)[..z - 1] == Repeat('0', z - 1);
      ZerosValue(z - 1);
    }
  }

  /** Python's `f"{n:0{width}d}"` for a natural number: left-padded with zeros to at least `width` digits. */
  function ZeroPad(n: nat, width: nat): string
  {
    var d := NatToString(n);
    if |d| >= width then d else Repeat('0', width - |d|) + d
  }

  /** A zero-padded number has exactly the requested width when it fits, is all digits, and reads back as the number. */
  lemma ZeroPadShape(n: nat, width: nat)
    ensures |ZeroPad(n, width)| == if |NatToString(n)| >= width then |NatToString(n)| else width
    ensures IsDigits(ZeroPad(n, width))
    ensures DigitsValue(ZeroPad(n, width)) == n
  {
    NatToStringRoundTrip(n);
    var d := NatToString(n);
    if |d| < width {
      LeadingZeros(width - |d|, d);
    }
  }
}
