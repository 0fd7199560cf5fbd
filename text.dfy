/**
 * The few Python string built-ins the playlist builder relies on, over
 * `string` (a sequence of Unicode scalar values):
 *   - `str.strip(chars)`, and `str.strip()` with Python's whitespace,
 *   - `str.lower()`, restricted to ASCII letters,
 *   - the substring test `sub in s`,
 *   - `"\n".join(lines)`, with `str.split("\n")` as its inverse.
 */
module Text {

  /** Python's whitespace: the characters `str.isspace()` accepts, which `strip()` removes. */
  const Whitespace: set<char> := {
    ' ', '\t', '\n', '\U{0B}', '\U{0C}', '\r',           // space, \t \n \v \f \r
    '\U{1C}', '\U{1D}', '\U{1E}', '\U{1F}',               // file/group/record/unit separators
    '\U{85}', '\U{A0}', '\U{1680}',
    '\U{2000}', '\U{2001}', '\U{2002}', '\U{2003}', '\U{2004}', '\U{2005}',
    '\U{2006}', '\U{2007}', '\U{2008}', '\U{2009}', '\U{200A}',
    '\U{2028}', '\U{2029}', '\U{202F}', '\U{205F}', '\U{3000}'
  }

  /** Every character of `s` is one of `chars`. */
  predicate AllIn(s: string, chars: set<char>) {
    forall k :: 0 <= k < |s| ==> s[k] in chars
  }

  /** `s.lstrip(chars)`: drops the leading characters that are in `chars`. */
  function TrimStart(s: string, chars: set<char>): string {
    if s != [] && s[0] in chars then TrimStart(s[1..], chars) else s
  }

  /** `s.rstrip(chars)`: drops the trailing characters that are in `chars`. */
  function TrimEnd(s: string, chars: set<char>): string {
    if s != [] && s[|s| - 1] in chars then TrimEnd(s[..|s| - 1], chars) else s
  }

  /** `s.strip(chars)`: drops the leading, then the trailing characters that are in `chars`. */
  function StripChars(s: string, chars: set<char>): string {
    TrimEnd(TrimStart(s, chars), chars)
  }

  /** `lstrip` removes a prefix made of `chars` and stops at the first other character. */
  lemma {:induction false} TrimStartSpec(s: string, chars: set<char>)
    ensures var r := TrimStart(s, chars);
      && |r| <= |s| && r == s[|s| - |r|..]
      && AllIn(s[..|s| - |r|], chars)
      && (r != [] ==> r[0] !in chars)
  {
    if s != [] && s[0] in chars {
      var r := TrimStart(s[1..], chars);
      TrimStartSpec(s[1..], chars);
      var k := |s| - |r|;
      assert s[1..][k - 1..] == s[k..];
      forall j | 0 <= j < k
        ensures s[..k][j] in chars
      {
        if j > 0 {
          assert s[..k][j] == s[1..][..k - 1][j - 1];
        }
      }
    }
  }

  /** `rstrip` removes a suffix made of `chars` and stops at the last other character. */
  lemma {:induction false} TrimEndSpec(s: string, chars: set<char>)
    ensures var r := TrimEnd(s, chars);
      && |r| <= |s| && r == s[..|r|]
      && AllIn(s[|r|..], chars)
      && (r != [] ==> r[|r| - 1] !in chars)
  {
    if s != [] && s[|s| - 1] in chars {
      var init := s[..|s| - 1];
      var r := TrimEnd(init, chars);
      TrimEndSpec(init, chars);
      assert init[..|r|] == s[..|r|];
      forall j | 0 <= j < |s| - |r|
        ensures s[|r|..][j] in chars
      {
        if j < |init| - |r| {
          assert s[|r|..][j] == init[|r|..][j];
        }
      }
    }
  }

  /**
   * What `strip(chars)` keeps: the part of `s` starting at some offset `i`
   * that neither starts nor ends with one of `chars`, while what lies
   * before and after it in `s` is made of `chars` only.
   */
  lemma StripCharsSpec(s: string, chars: set<char>) returns (i: nat)
    ensures var r := StripChars(s, chars);
      && (r != [] ==> r[0] !in chars && r[|r| - 1] !in chars)
      && i + |r| <= |s| && r == s[i..i + |r|]
      && AllIn(s[..i], chars) && AllIn(s[i + |r|..], chars)
  {
    var t := TrimStart(s, chars);
    var r := TrimEnd(t, chars);
    assert StripChars(s, chars) == r;
    TrimStartSpec(s, chars);
    TrimEndSpec(t, chars);
    i := |s| - |t|;
    assert r != [] ==> r[0] == t[0];
    assert r == s[i..i + |r|];
    assert s[i + |r|..] == t[|r|..];
  }

  /** `s.strip()`: removes surrounding whitespace. */
  function Strip(s: string): string {
    StripChars(s, Whitespace)
  }

  /** A string that neither starts nor ends with one of `chars` is its own `strip(chars)`. */
  lemma {:induction false} StripUnchanged(s: string, chars: set<char>)
    requires s != [] ==> s[0] !in chars && s[|s| - 1] !in chars
    ensures StripChars(s, chars) == s
  {
    var i := StripCharsSpec(s, chars);
  }

  /** `strip(chars)` is idempotent. */
  lemma StripIdempotent(s: string, chars: set<char>)
    ensures StripChars(StripChars(s, chars), chars) == StripChars(s, chars)
  {
    var _ := StripCharsSpec(s, chars);
    StripUnchanged(StripChars(s, chars), chars);
  }

  /** ASCII case folding of one character; every other character is kept. */
  function LowerChar(c: char): char {
    if 'A' <= c <= 'Z' then (c as int - 'A' as int + 'a' as int) as char else c
  }

  /** `s.lower()` on ASCII letters: folded character by character. */
  function Lower(s: string): string {
    seq(|s|, i requires 0 <= i < |s| => LowerChar(s[i]))
  }

  /**
   * The literal test the link filter uses: the lower-case form of `s` is
   * "null" exactly when `s` spells null in any mix of letter cases.
   */
  lemma {:induction false} LowerIsNull(s: string)
    ensures Lower(s) == "null" <==>
      (|s| == 4 && s[0] in "nN" && s[1] in "uU" && s[2] in "lL" && s[3] in "lL")
  {
    var r := Lower(s);
    if |s| == 4 && s[0] in "nN" && s[1] in "uU" && s[2] in "lL" && s[3] in "lL" {
      assert r == [r[0], r[1], r[2], r[3]];
    }
    if r == "null" {
      assert LowerChar(s[0]) == 'n' && LowerChar(s[1]) == 'u';
      assert LowerChar(s[2]) == 'l' && LowerChar(s[3]) == 'l';
    }
  }

  /** `sub` occurs in `s` starting at position `i`. */
  predicate OccursAt(s: string, sub: string, i: nat) {
    i + |sub| <= |s| && s[i..i + |sub|] == sub
  }

  /** Characters `j..` of `sub` match `s` from position `i + j` on. */
  predicate MatchFrom(s: string, sub: string, i: nat, j: nat)
    requires j <= |sub|
    decreases |sub| - j
  {
    j == |sub| || (i + j < |s| && s[i + j] == sub[j] && MatchFrom(s, sub, i, j + 1))
  }

  /** `sub` occurs in `s` at some position `i` or later. */
  predicate ContainsFrom(s: string, sub: string, i: nat)
    decreases |s| - i
  {
    i + |sub| <= |s| && (MatchFrom(s, sub, i, 0) || ContainsFrom(s, sub, i + 1))
  }

  /** Python's `sub in s`: scans the positions of `s` from left to right. */
  predicate Contains(s: string, sub: string) {
    ContainsFrom(s, sub, 0)
  }

  lemma {:induction false} MatchFromIff(s: string, sub: string, i: nat, j: nat)
    requires j <= |sub| && i + |sub| <= |s|
    ensures MatchFrom(s, sub, i, j) <==> s[i + j..i + |sub|] == sub[j..]
    decreases |sub| - j
  {
    if j < |sub| {
      MatchFromIff(s, sub, i, j + 1);
      assert s[i + j..i + |sub|] == [s[i + j]] + s[i + j + 1..i + |sub|];
      assert sub[j..] == [sub[j]] + sub[j + 1..];
    }
  }

  lemma {:induction false} ContainsFromIff(s: string, sub: string, i: nat)
    ensures ContainsFrom(s, sub, i) <==> exists k: nat :: i <= k && OccursAt(s, sub, k)
    decreases |s| - i
  {
    if i + |sub| <= |s| {
      MatchFromIff(s, sub, i, 0);
      assert sub[0..] == sub;
      ContainsFromIff(s, sub, i + 1);
      if MatchFrom(s, sub, i, 0) {
        assert OccursAt(s, sub, i);
      }
      if exists k: nat :: i <= k && OccursAt(s, sub, k) {
        var k: nat :| i <= k && OccursAt(s, sub, k);
        if k == i {
          assert MatchFrom(s, sub, i, 0);
        } else {
          assert ContainsFrom(s, sub, i + 1);
        }
      }
    }
  }

  /** The scan agrees with the positional definition of a substring. */
  lemma ContainsAt(s: string, sub: string)
    ensures Contains(s, sub) <==> exists i: nat :: OccursAt(s, sub, i)
  {
    ContainsFromIff(s, sub, 0);
  }

  /** `"\n".join(lines)`: the lines separated by newlines, none added at the end. */
  function Join(lines: seq<string>): string {
    if |lines| == 0 then ""
    else if |lines| == 1 then lines[0]
    else lines[0] + "\n" + Join(lines[1..])
  }

  /** Position of the first `c` in `s`, or `|s|` when there is none. */
  function IndexOf(s: string, c: char): (i: nat)
    ensures i <= |s|
    ensures i < |s| ==> s[i] == c
    ensures forall j :: 0 <= j < i ==> s[j] != c
  {
    if s == [] then 0 else if s[0] == c then 0 else 1 + IndexOf(s[1..], c)
  }

  /** `s.split("\n")`: the pieces between newlines, at least one. */
  function Split(s: string): (lines: seq<string>)
    ensures |lines| > 0
    decreases |s|
  {
    var i := IndexOf(s, '\n');
    if i == |s| then [s] else [s[..i]] + Split(s[i + 1..])
  }

  /** The joined text starts with the first line. */
  lemma JoinStartsWith(lines: seq<string>)
    requires |lines| > 0
    ensures |lines[0]| <= |Join(lines)| && Join(lines)[..|lines[0]|] == lines[0]
  {
  }

  /** The joined text ends with the last line: joining adds no trailing newline. */
  lemma {:induction false} JoinEndsWith(lines: seq<string>)
    requires |lines| > 0
    ensures var t := Join(lines); var l := lines[|lines| - 1];
            |l| <= |t| && t[|t| - |l|..] == l
  {
    if |lines| > 1 {
      JoinEndsWith(lines[1..]);
    }
  }

  /** Splitting the joined text gives back the lines, when none holds a newline. */
  lemma {:induction false} SplitJoin(lines: seq<string>)
    requires |lines| > 0
    requires forall k :: 0 <= k < |lines| ==> '\n' !in lines[k]
    ensures Split(Join(lines)) == lines
  {
    var l := lines[0];
    if |lines| == 1 {
      assert IndexOf(l, '\n') == |l|;
    } else {
      var t := Join(lines);
      var rest := lines[1..];
      assert t == l + "\n" + Join(rest);
      var i := IndexOf(t, '\n');
      assert t[|l|] == '\n';
      assert forall j :: 0 <= j < |l| ==> t[j] == l[j];
      assert i == |l|;
      assert t[..i] == l;
      assert t[i + 1..] == Join(rest);
      SplitJoin(rest);
    }
  }
}
