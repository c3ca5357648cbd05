/** The string functions of Go's `strings` package that the modelled code calls. */
module Text {

  /** Go's white space: the Unicode property White_Space. */
  predicate IsSpace(c: char) {
    || c == ' ' || '\t' <= c <= '\r' || c == '\U{0085}' || c == '\U{00A0}' || c == '\U{1680}'
    || '\U{2000}' <= c <= '\U{200A}' || c == '\U{2028}' || c == '\U{2029}' || c == '\U{202F}'
    || c == '\U{205F}' || c == '\U{3000}'
  }

  /** White space is exactly these twenty-five characters. */
  lemma SpaceIs(c: char)
    ensures IsSpace(c) <==>
              || c in "\U{0009}\U{000A}\U{000B}\U{000C}\U{000D}\U{0020}\U{0085}\U{00A0}\U{1680}"
              || c in "\U{2000}\U{2001}\U{2002}\U{2003}\U{2004}\U{2005}\U{2006}\U{2007}\U{2008}\U{2009}\U{200A}"
              || c in "\U{2028}\U{2029}\U{202F}\U{205F}\U{3000}"
  {
  }

  function TrimLeft(s: string): string {
    if s != [] && IsSpace(s[0]) then TrimLeft(s[1..]) else s
  }

  function TrimRight(s: string): string {
    if s != [] && IsSpace(s[|s| - 1]) then TrimRight(s[..|s| - 1]) else s
  }

  /** `strings.TrimSpace`. */
  function Trim(s: string): string {
    TrimRight(TrimLeft(s))
  }

  predicate Trimmed(s: string) {
    s == [] || (!IsSpace(s[0]) && !IsSpace(s[|s| - 1]))
  }

  predicate AllSpace(s: string) {
    forall i :: 0 <= i < |s| ==> IsSpace(s[i])
  }

  /** `t` is a stretch of `s` with nothing but white space around it. */
  ghost predicate SpaceAround(s: string, t: string) {
    exists i, j :: 0 <= i <= j <= |s| && t == s[i..j] && AllSpace(s[..i]) && AllSpace(s[j..])
  }

  lemma {:induction false} TrimLeftDropsSpace(s: string) returns (i: nat)
    ensures i <= |s| && TrimLeft(s) == s[i..] && AllSpace(s[..i])
  {
    i := 0;
    if s != [] && IsSpace(s[0]) {
      var rest := TrimLeftDropsSpace(s[1..]);
      i := rest + 1;
      assert s[..i] == [s[0]] + s[1..][..rest];
    }
  }

  lemma {:induction false} TrimRightDropsSpace(s: string) returns (j: nat)
    ensures j <= |s| && TrimRight(s) == s[..j] && AllSpace(s[j..])
    decreases |s|
  {
    j := |s|;
    if s != [] && IsSpace(s[|s| - 1]) {
      j := TrimRightDropsSpace(s[..|s| - 1]);
      assert s[j..] == s[..|s| - 1][j..] + [s[|s| - 1]];
    }
  }

  lemma {:induction false} TrimLeftStops(s: string)
    ensures TrimLeft(s) == [] || !IsSpace(TrimLeft(s)[0])
  {
    if s != [] && IsSpace(s[0]) {
      TrimLeftStops(s[1..]);
    }
  }

  lemma {:induction false} TrimRightKeepsFront(s: string)
    requires s == [] || !IsSpace(s[0])
    ensures Trimmed(TrimRight(s))
    decreases |s|
  {
    if s != [] && IsSpace(s[|s| - 1]) {
      TrimRightKeepsFront(s[..|s| - 1]);
    }
  }

  /** Trimming takes white space off the ends, leaves none there, and takes nothing else. */
  lemma TrimIsTrimmed(s: string)
    ensures Trimmed(Trim(s)) && SpaceAround(s, Trim(s))
    ensures Trimmed(s) <==> Trim(s) == s
    ensures Trim(Trim(s)) == Trim(s)
  {
    TrimLeftStops(s);
    TrimRightKeepsFront(TrimLeft(s));
    TrimDropsSpace(s);
  }

  lemma TrimDropsSpace(s: string)
    ensures SpaceAround(s, Trim(s))
  {
    var i := TrimLeftDropsSpace(s);
    var j := TrimRightDropsSpace(s[i..]);
    SpaceAroundMiddle(s, i, j);
  }

  lemma SpaceAroundMiddle(s: string, i: nat, j: nat)
    requires i <= |s| && j <= |s[i..]| && AllSpace(s[..i]) && AllSpace(s[i..][j..])
    ensures SpaceAround(s, s[i..][..j])
  {
    assert s[i..][..j] == s[i..i + j] && s[i..][j..] == s[i + j..];
  }

  /** Simple case folding, for comparison with ASCII text. */
  function Fold(c: char): char {
    if 'A' <= c <= 'Z' then (c as int + 32) as char
    else if c == '\U{017F}' then 's'
    else if c == '\U{212A}' then 'k'
    else c
  }

  /** `strings.EqualFold(s, t)` for a `t` in ASCII. */
  predicate EqualFold(s: string, t: string) {
    |s| == |t| && forall i :: 0 <= i < |s| ==> Fold(s[i]) == Fold(t[i])
  }

  /** The words that count as "stopped": either case of each letter, or the long s. */
  lemma StoppedWords(s: string)
    ensures EqualFold(s, "stopped") <==>
              && |s| == 7
              && s[0] in "sS\U{017F}" && s[1] in "tT" && s[2] in "oO" && s[3] in "pP"
              && s[4] in "pP" && s[5] in "eE" && s[6] in "dD"
  {
    var t := "stopped";
    if |s| == 7 {
      assert EqualFold(s, t) <==>
          && Fold(s[0]) == Fold(t[0]) && Fold(s[1]) == Fold(t[1]) && Fold(s[2]) == Fold(t[2])
          && Fold(s[3]) == Fold(t[3]) && Fold(s[4]) == Fold(t[4])
          && Fold(s[5]) == Fold(t[5]) && Fold(s[6]) == Fold(t[6]);
    }
  }

  /** The text before the first `sep`: all of `s` if there is none. */
  function Before(s: string, sep: char): (b: string)
    ensures b <= s && sep !in b
    ensures b == s || s[|b|] == sep
  {
    if s == [] || s[0] == sep then [] else [s[0]] + Before(s[1..], sep)
  }

  /** The text before the first separator is what was put there. */
  lemma {:induction false} BeforeStops(k: string, v: string, sep: char)
    requires sep !in k
    ensures Before(k + [sep] + v, sep) == k
  {
    var s := k + [sep] + v;
    if k != [] {
      assert s[1..] == k[1..] + [sep] + v;
      BeforeStops(k[1..], v, sep);
    }
  }

  /** `strings.Split(s, sep)` for a one-character separator. */
  function Split(s: string, sep: char): (parts: seq<string>)
    ensures parts != []
    decreases |s|
  {
    var b := Before(s, sep);
    if b == s then [s] else [b] + Split(s[|b| + 1..], sep)
  }

  /** `strings.SplitN(s, sep, 2)` for a one-character separator. */
  function SplitTwo(s: string, sep: char): (parts: seq<string>)
    ensures 1 <= |parts| <= 2
  {
    var b := Before(s, sep);
    if b == s then [s] else [b, s[|b| + 1..]]
  }

  function Join(parts: seq<string>, sep: char): string
    requires parts != []
  {
    if |parts| == 1 then parts[0] else parts[0] + [sep] + Join(parts[1..], sep)
  }

  /** Splitting loses nothing and leaves no separator in a part. */
  lemma {:induction false} SplitJoins(s: string, sep: char)
    ensures Join(Split(s, sep), sep) == s
    ensures forall i :: 0 <= i < |Split(s, sep)| ==> sep !in Split(s, sep)[i]
    decreases |s|
  {
    var b := Before(s, sep);
    if b != s {
      var rest := s[|b| + 1..];
      SplitJoins(rest, sep);
      assert s == b + [sep] + rest;
      assert Split(s, sep)[1..] == Split(rest, sep);
    }
  }

  lemma SplitNone(s: string, sep: char)
    requires sep !in s
    ensures Split(s, sep) == [s]
  {
    BeforeAll(s, sep);
  }

  lemma {:induction false} BeforeAll(s: string, sep: char)
    requires sep !in s
    ensures Before(s, sep) == s
  {
    if s != [] {
      BeforeAll(s[1..], sep);
    }
  }

  lemma SplitFirst(k: string, rest: string, sep: char)
    requires sep !in k
    ensures Split(k + [sep] + rest, sep) == [k] + Split(rest, sep)
  {
    BeforeStops(k, rest, sep);
    assert (k + [sep] + rest)[|k| + 1..] == rest;
  }

  lemma JoinLater(b: string, rest: string, t: string, sep: char)
    ensures b + [sep] + rest + [sep] + t == b + [sep] + (rest + [sep] + t)
  {
  }

  /** The parts of two texts joined by a separator are the parts of the first and then those of the second. */
  lemma {:induction false} SplitAppend(s: string, t: string, sep: char)
    ensures Split(s + [sep] + t, sep) == Split(s, sep) + Split(t, sep)
    decreases |s|
  {
    var b := Before(s, sep);
    if b == s {
      SplitFirst(s, t, sep);
    } else {
      var rest := s[|b| + 1..];
      assert s == b + [sep] + rest;
      JoinLater(b, rest, t, sep);
      SplitFirst(b, rest + [sep] + t, sep);
      SplitAppend(rest, t, sep);
    }
  }
}
