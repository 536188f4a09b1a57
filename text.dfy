/** Python string operations the core relies on, over Dafny strings (seq<char>). */
module Text {

  /** Python's str.isspace() on one character: the characters str.strip() removes. */
  predicate IsSpace(c: char) {
    c in Whitespace
  }

  const Whitespace: set<char> := {
    ' ', '\t', '\n', '\U{b}', '\U{c}', '\r', '\U{1c}', '\U{1d}', '\U{1e}', '\U{1f}', '\U{85}', '\U{a0}',
    '\U{1680}', '\U{2000}', '\U{2001}', '\U{2002}', '\U{2003}', '\U{2004}', '\U{2005}', '\U{2006}',
    '\U{2007}', '\U{2008}', '\U{2009}', '\U{200a}', '\U{2028}', '\U{2029}', '\U{202f}', '\U{205f}',
    '\U{3000}'}

  /** Python's s.lstrip(): s without its leading whitespace. */
  function StripLeft(s: string): (r: string)
    ensures |r| <= |s|
    decreases |s|
  {
    if s != [] && IsSpace(s[0]) then StripLeft(s[1..]) else s
  }

  /** Python's s.rstrip(): s without its trailing whitespace. */
  function StripRight(s: string): (r: string)
    ensures |r| <= |s|
    decreases |s|
  {
    if s != [] && IsSpace(s[|s| - 1]) then StripRight(s[..|s| - 1]) else s
  }

  /** Python's str.strip() with no argument. */
  function Strip(s: string): (r: string)
    ensures |r| <= |s|
  {
    StripRight(StripLeft(s))
  }

  /** lstrip removes a run of whitespace from the front and stops at a non-space. */
  lemma {:induction false} StripLeftSpec(s: string)
    ensures StripLeft(s) == s[|s| - |StripLeft(s)|..]
    ensures forall i :: 0 <= i < |s| - |StripLeft(s)| ==> IsSpace(s[i])
    ensures StripLeft(s) != [] ==> !IsSpace(StripLeft(s)[0])
    decreases |s|
  {
    if s != [] && IsSpace(s[0]) {
      StripLeftSpec(s[1..]);
      assert forall i :: 1 <= i < |s| ==> s[1..][i - 1] == s[i];
    }
  }

  /** rstrip removes a run of whitespace from the back and stops at a non-space. */
  lemma {:induction false} StripRightSpec(s: string)
    ensures StripRight(s) == s[..|StripRight(s)|]
    ensures forall i :: |StripRight(s)| <= i < |s| ==> IsSpace(s[i])
    ensures StripRight(s) != [] ==> !IsSpace(StripRight(s)[|StripRight(s)| - 1])
    decreases |s|
  {
    if s != [] && IsSpace(s[|s| - 1]) {
      StripRightSpec(s[..|s| - 1]);
      assert forall i :: 0 <= i < |s| - 1 ==> s[..|s| - 1][i] == s[i];
    }
  }

  predicate IsStripped(s: string) {
    s == [] || (!IsSpace(s[0]) && !IsSpace(s[|s| - 1]))
  }

  /** The result of strip has no whitespace at either end. */
  lemma StripShape(s: string)
    ensures IsStripped(Strip(s))
  {
    var l := StripLeft(s);
    StripLeftSpec(s);
    StripRightSpec(l);
    var r := StripRight(l);
    if r != [] {
      assert r[0] == l[0];
    }
  }

  /** Stripping gives the empty string exactly when every character is whitespace. */
  lemma StripEmpty(s: string)
    ensures Strip(s) == [] <==> forall i :: 0 <= i < |s| ==> IsSpace(s[i])
  {
    var l := StripLeft(s);
    StripLeftSpec(s);
    StripRightSpec(l);
    if Strip(s) == [] {
      assert l == [];
    }
  }

  /** Stripping only removes characters: every character left was in the input, and a
      first character that is not a space stays first. */
  lemma StripKeeps(s: string)
    ensures forall c :: c in Strip(s) ==> c in s
    ensures s != [] && !IsSpace(s[0]) ==> Strip(s) != [] && Strip(s)[0] == s[0]
  {
    var l := StripLeft(s);
    StripLeftSpec(s);
    StripRightSpec(l);
    var r := Strip(s);
    var d := |s| - |l|;
    forall c | c in r ensures c in s {
      var i :| 0 <= i < |r| && r[i] == c;
      assert l[i] == c;
      assert s[d + i] == c;
    }
    if s != [] && !IsSpace(s[0]) {
      assert l == s;
    }
  }

  /** A string without surrounding whitespace is its own strip; so strip is idempotent. */
  lemma StripStripped(s: string)
    requires IsStripped(s)
    ensures Strip(s) == s
  {
  }

  lemma StripIdempotent(s: string)
    ensures Strip(Strip(s)) == Strip(s)
  {
    StripShape(s);
    StripStripped(Strip(s));
  }

  /** Python's s.startswith(p). */
  predicate StartsWith(s: string, p: string) {
    |p| <= |s| && s[..|p|] == p
  }

  /** Python's `sub in s` on strings. */
  predicate Contains(s: string, sub: string) {
    exists i :: 0 <= i <= |s| && StartsWith(s[i..], sub)
  }

  /** Python's s.find(c) for one character, with |s| standing for "not found". */
  function Find(s: string, c: char): (k: nat)
    ensures k <= |s|
    ensures k < |s| ==> s[k] == c
    ensures forall i :: 0 <= i < k ==> s[i] != c
    decreases |s|
  {
    if s == [] then 0 else if s[0] == c then 0 else 1 + Find(s[1..], c)
  }

  /** Python's s.rfind(c) for one character, with -1 for "not found". */
  function RFind(s: string, c: char): (k: int)
    ensures -1 <= k < |s|
    ensures k >= 0 ==> s[k] == c
    ensures forall i :: k < i < |s| ==> s[i] != c
    decreases |s|
  {
    if s == [] then -1
    else if s[|s| - 1] == c then |s| - 1
    else RFind(s[..|s| - 1], c)
  }

  /** The lines of a text: the pieces between '\n' characters, a final '\n' ending the
      last line rather than starting an empty one (Python's splitlines() and file
      iteration, for '\n' line ends). */
  function Lines(s: string): (ls: seq<string>)
    decreases |s|
  {
    if s == [] then []
    else
      var k := Find(s, '\n');
      if k == |s| then [s] else [s[..k]] + Lines(s[k + 1..])
  }

  /** No line contains a line break. */
  lemma {:induction false} LinesHaveNoBreak(s: string)
    ensures forall j :: 0 <= j < |Lines(s)| ==> '\n' !in Lines(s)[j]
    decreases |s|
  {
    if s != [] {
      var k := Find(s, '\n');
      if k < |s| {
        LinesHaveNoBreak(s[k + 1..]);
        var ls := Lines(s);
        var rest := Lines(s[k + 1..]);
        assert ls == [s[..k]] + rest;
        forall j | 0 <= j < |ls| ensures '\n' !in ls[j] {
          if j == 0 {
            assert ls[0] == s[..k];
          } else {
            assert ls[j] == rest[j - 1];
          }
        }
      }
    }
  }

  /** Each line followed by '\n', concatenated: what writing the lines out produces. */
  function Unlines(ls: seq<string>): string {
    if ls == [] then [] else ls[0] + "\n" + Unlines(ls[1..])
  }

  /** Splitting a text made of newline-terminated lines gives the lines back. */
  lemma {:induction false} LinesUnlines(ls: seq<string>)
    requires forall j :: 0 <= j < |ls| ==> '\n' !in ls[j]
    ensures Lines(Unlines(ls)) == ls
  {
    if ls != [] {
      var s := Unlines(ls);
      assert s == ls[0] + ("\n" + Unlines(ls[1..]));
      FindAfterPrefix(ls[0], "\n" + Unlines(ls[1..]), '\n');
      assert s[|ls[0]| + 1..] == Unlines(ls[1..]);
      assert s[..|ls[0]|] == ls[0];
      LinesUnlines(ls[1..]);
    }
  }

  lemma FindAfterPrefix(a: string, b: string, c: char)
    requires c !in a && b != [] && b[0] == c
    ensures Find(a + b, c) == |a|
  {
    assert (a + b)[|a|] == c;
  }

  /** A character found in a prefix is found at the same place in any extension. */
  lemma {:induction false} FindInPrefix(a: string, b: string, c: char)
    requires Find(a, c) < |a|
    ensures Find(a + b, c) == Find(a, c)
  {
    if a[0] != c {
      assert (a + b)[1..] == a[1..] + b;
      FindInPrefix(a[1..], b, c);
    }
  }

  /** A single newline-terminated line splits into just that line. */
  lemma LinesOfOneLine(line: string)
    requires '\n' !in line
    ensures Lines(line + "\n") == [line]
  {
    var t := line + "\n";
    FindAfterPrefix(line, "\n", '\n');
    assert t[..|line|] == line;
    assert t[|line| + 1..] == [];
  }

  /** The first line of a text is unaffected by what is appended after its newline. */
  lemma LinesExtend(s: string, more: string)
    requires Find(s, '\n') < |s|
    ensures var k := Find(s, '\n');
            Lines(s + more) == [s[..k]] + Lines(s[k + 1..] + more)
  {
    var k := Find(s, '\n');
    var t := s + more;
    FindInPrefix(s, more, '\n');
    assert t[..k] == s[..k];
    assert t[k + 1..] == s[k + 1..] + more;
  }

  /** Appending one newline-terminated line to a text that is empty or ends with a
      newline adds exactly that line and keeps the earlier ones. */
  lemma {:induction false} LinesAppend(s: string, line: string)
    requires s == [] || s[|s| - 1] == '\n'
    requires '\n' !in line
    ensures Lines(s + line + "\n") == Lines(s) + [line]
    decreases |s|
  {
    var more := line + "\n";
    assert s + line + "\n" == s + more;
    if s == [] {
      assert s + more == more;
      LinesOfOneLine(line);
    } else {
      var k := Find(s, '\n');
      assert k < |s|;
      LinesExtend(s, more);
      var rest := s[k + 1..];
      assert Lines(s) == [s[..k]] + Lines(rest);
      assert rest == [] || rest[|rest| - 1] == '\n' by {
        if rest != [] {
          assert rest[|rest| - 1] == s[|s| - 1];
        }
      }
      assert rest + line + "\n" == rest + more;
      LinesAppend(rest, line);
    }
  }

  /** Python's sep.join(parts). */
  function Join(sep: string, parts: seq<string>): string {
    if parts == [] then []
    else if |parts| == 1 then parts[0]
    else parts[0] + sep + Join(sep, parts[1..])
  }

  /** "\n".join(lines) + "\n" writes every line newline-terminated, when there is a line. */
  lemma {:induction false} JoinNewlines(ls: seq<string>)
    requires ls != []
    ensures Join("\n", ls) + "\n" == Unlines(ls)
  {
    if |ls| > 1 {
      JoinNewlines(ls[1..]);
    }
  }

  /** The first part of a join is a prefix; every part sits, whole, at a known offset. */
  lemma {:induction false} JoinContains(sep: string, parts: seq<string>, i: nat)
    requires i < |parts|
    ensures Contains(Join(sep, parts), parts[i])
  {
    var j := Join(sep, parts);
    if i == 0 {
      assert StartsWith(j[0..], parts[0]);
    } else {
      JoinContains(sep, parts[1..], i - 1);
      var rest := Join(sep, parts[1..]);
      var off :| 0 <= off <= |rest| && StartsWith(rest[off..], parts[i]);
      var shift := |parts[0]| + |sep|;
      assert j == parts[0] + sep + rest;
      assert j[shift + off..] == rest[off..];
      assert StartsWith(j[shift + off..], parts[i]);
    }
  }

  /** One decimal digit. */
  function Digit(d: nat): (c: char)
    requires d < 10
    ensures '0' <= c <= '9'
  {
    ['0', '1', '2', '3', '4', '5', '6', '7', '8', '9'][d]
  }

  /** Python's str(n) for a non-negative integer. */
  function NatToString(n: nat): (s: string)
    ensures s != []
    ensures forall i :: 0 <= i < |s| ==> '0' <= s[i] <= '9'
  {
    if n < 10 then [Digit(n)] else NatToString(n / 10) + [Digit(n % 10)]
  }

  lemma DigitInjective(a: nat, b: nat)
    requires a < 10 && b < 10 && Digit(a) == Digit(b)
    ensures a == b
  {
  }

  /** Different numbers print differently. */
  lemma {:induction false} NatToStringInjective(a: nat, b: nat)
    requires NatToString(a) == NatToString(b)
    ensures a == b
  {
    var s := NatToString(a);
    if a < 10 && b < 10 {
      DigitInjective(a, b);
    } else if a >= 10 && b >= 10 {
      assert s[|s| - 1] == Digit(a % 10) == Digit(b % 10);
      DigitInjective(a % 10, b % 10);
      assert NatToString(a / 10) == s[..|s| - 1] == NatToString(b / 10);
      NatToStringInjective(a / 10, b / 10);
    }
  }

  /** Python's str.upper() / str.lower() restricted to ASCII letters. */
  function UpperChar(c: char): char {
    if 'a' <= c <= 'z' then (c as int - 32) as char else c
  }

  function LowerChar(c: char): char {
    if 'A' <= c <= 'Z' then (c as int + 32) as char else c
  }

  function Upper(s: string): (r: string)
    ensures |r| == |s| && forall i :: 0 <= i < |s| ==> r[i] == UpperChar(s[i])
  {
    seq(|s|, i requires 0 <= i < |s| => UpperChar(s[i]))
  }

  function Lower(s: string): (r: string)
    ensures |r| == |s| && forall i :: 0 <= i < |s| ==> r[i] == LowerChar(s[i])
  {
    seq(|s|, i requires 0 <= i < |s| => LowerChar(s[i]))
  }
}
