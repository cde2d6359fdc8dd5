/** The template filters of e_commerce/shop/templatetags/shop_tags.py. */
module ShopTags {

  /** The first position of `c` in `s`. */
  function FirstIndex(s: string, c: char): (r: nat)
    requires c in s
    ensures r < |s| && s[r] == c
    ensures forall k :: 0 <= k < r ==> s[k] != c
  {
    if s[0] == c then 0
    else
      assert c in s[1..] by { assert s == [s[0]] + s[1..]; }
      1 + FirstIndex(s[1..], c)
  }

  /** The last position of `c` in `s`. */
  function LastIndex(s: string, c: char): (r: nat)
    requires c in s
    ensures r < |s| && s[r] == c
    ensures forall k :: r < k < |s| ==> s[k] != c
  {
    var n := |s| - 1;
    if s[n] == c then n
    else
      assert c in s[..n] by { assert s == s[..n] + [s[n]]; }
      LastIndex(s[..n], c)
  }

  /** A match of the pattern `[(].+[)]` within one line: an opening
      bracket, then at least one character, then a closing bracket. */
  predicate HasSpan(s: string) {
    exists i, j :: 0 <= i && i + 2 <= j < |s| && s[i] == '(' && s[j] == ')'
  }

  /** `s` with the span from `i` to `j` (both included) cut out. */
  function Cut(s: string, i: nat, j: nat): string
    requires i <= j < |s|
  {
    s[..i] + s[j + 1..]
  }

  /** `hide_brackets` on a single line. The leftmost match starts at the
      first opening bracket and, `.+` being greedy, ends at the last
      closing bracket; nothing after it can match again. */
  function HideLine(s: string): (r: string)
    requires '\n' !in s
    ensures !HasSpan(s) ==> r == s
    ensures HasSpan(s) ==>
              exists i: nat, j: nat :: i + 2 <= j < |s| && s[i] == '(' && s[j] == ')' &&
                (forall k :: 0 <= k < i ==> s[k] != '(') &&
                (forall k :: j < k < |s| ==> s[k] != ')') &&
                r == Cut(s, i, j)
    ensures !HasSpan(r)
    ensures '\n' !in r && |r| <= |s|
  {
    if '(' in s && ')' in s && FirstIndex(s, '(') + 2 <= LastIndex(s, ')') then
      var i := FirstIndex(s, '(');
      var j := LastIndex(s, ')');
      CutHasNoSpan(s, i, j);
      Cut(s, i, j)
    else s
  }

  lemma CutHasNoSpan(s: string, i: nat, j: nat)
    requires i <= j < |s| && '\n' !in s
    requires forall k :: 0 <= k < i ==> s[k] != '('
    requires forall k :: j < k < |s| ==> s[k] != ')'
    ensures !HasSpan(Cut(s, i, j)) && '\n' !in Cut(s, i, j)
  {
    var r := Cut(s, i, j);
    forall a | 0 <= a < |r|
      ensures r[a] == (if a < i then s[a] else s[a + j + 1 - i])
    {
    }
    assert forall a :: 0 <= a < |r| ==> r[a] != '\n';
  }

  /** `hide_brackets`: `re.sub("[(].+[)]", "", value)`. The `.` of the
      pattern does not match a newline, so each line is treated on its own. */
  function HideBrackets(s: string): (r: string)
    ensures |r| <= |s|
    ensures ('\n' in r) <==> ('\n' in s)
    ensures (forall k :: 0 <= k < |s| ==> s[k] != '(') ==> r == s
    ensures '\n' !in s ==> r == HideLine(s)
    ensures multiset(r)['\n'] == multiset(s)['\n']
    decreases |s|
  {
    if '\n' in s then
      var k := FirstIndex(s, '\n');
      var line, rest := s[..k], s[k + 1..];
      assert s == line + "\n" + rest;
      var a, b := HideLine(line), HideBrackets(rest);
      assert (forall t :: 0 <= t < |line| ==> line[t] != '(') ==> !HasSpan(line);
      JoinLines(s, line, rest, a, b);
      NewlineCount(line, rest, a, b);
      a + "\n" + b
    else HideLine(s)
  }

  /** The facts `HideBrackets` promises carry over from one line and the
      text after it to their join. */
  lemma JoinLines(s: string, line: string, rest: string, a: string, b: string)
    requires s == line + "\n" + rest && '\n' !in line
    requires |a| <= |line| && |b| <= |rest|
    requires ('\n' in b) <==> ('\n' in rest)
    requires (forall t :: 0 <= t < |line| ==> line[t] != '(') ==> a == line
    requires (forall t :: 0 <= t < |rest| ==> rest[t] != '(') ==> b == rest
    ensures |a + "\n" + b| <= |s|
    ensures '\n' in a + "\n" + b && '\n' in s
    ensures (forall t :: 0 <= t < |s| ==> s[t] != '(') ==> a + "\n" + b == s
  {
    assert s[|line|] == '\n';
    assert (a + "\n" + b)[|a|] == '\n';
    if forall t :: 0 <= t < |s| ==> s[t] != '(' {
      assert forall t :: 0 <= t < |line| ==> line[t] == s[t];
      assert forall t :: 0 <= t < |rest| ==> rest[t] == s[|line| + 1 + t];
    }
  }

  /** Joining at a line break keeps the number of line breaks when neither
      line holds one and the rest keeps its count. */
  lemma NewlineCount(line: string, rest: string, a: string, b: string)
    requires '\n' !in line && '\n' !in a
    requires multiset(b)['\n'] == multiset(rest)['\n']
    ensures multiset(a + "\n" + b)['\n'] == multiset(line + "\n" + rest)['\n']
  {
    assert multiset(a + "\n" + b) == multiset(a) + multiset("\n") + multiset(b);
    assert multiset(line + "\n" + rest) == multiset(line) + multiset("\n") + multiset(rest);
    assert multiset(a)['\n'] == 0 && multiset(line)['\n'] == 0;
  }

  /** A line already without a span comes through `HideLine` as it is. */
  lemma HideLineIdempotent(s: string)
    requires '\n' !in s
    ensures HideLine(HideLine(s)) == HideLine(s)
  {
  }

  /** The first line break of `a + "\n" + b` is the one after `a`. */
  lemma SplitAtFirstBreak(a: string, b: string)
    requires '\n' !in a
    ensures '\n' in a + "\n" + b
    ensures FirstIndex(a + "\n" + b, '\n') == |a|
    ensures (a + "\n" + b)[..|a|] == a && (a + "\n" + b)[|a| + 1..] == b
  {
    var r := a + "\n" + b;
    assert r[|a|] == '\n';
    assert forall t :: 0 <= t < |a| ==> r[t] == a[t];
  }

  /** Text with a line break is its first line, the break, and the rest. */
  lemma AtFirstBreak(s: string)
    requires '\n' in s
    ensures var k := FirstIndex(s, '\n');
            s == s[..k] + "\n" + s[k + 1..] && '\n' !in s[..k]
  {
  }

  /** `hide_brackets` treats a first line on its own: the match cannot run
      past the line break, so the rest is processed separately. */
  lemma HideBracketsStep(a: string, b: string)
    requires '\n' !in a
    ensures HideBrackets(a + "\n" + b) == HideLine(a) + "\n" + HideBrackets(b)
  {
    SplitAtFirstBreak(a, b);
  }

  /** Hiding brackets twice hides nothing more. */
  lemma {:induction false} HideBracketsIdempotent(s: string)
    ensures HideBrackets(HideBrackets(s)) == HideBrackets(s)
    decreases |s|
  {
    if '\n' in s {
      AtFirstBreak(s);
      var k := FirstIndex(s, '\n');
      var line, rest := s[..k], s[k + 1..];
      HideBracketsStep(line, rest);
      HideBracketsStep(HideLine(line), HideBrackets(rest));
      HideLineIdempotent(line);
      HideBracketsIdempotent(rest);
    } else {
      HideLineIdempotent(s);
    }
  }

  /** `"\n".join(lines)`. */
  function Unlines(lines: seq<string>): string
    decreases |lines|
  {
    if |lines| == 0 then ""
    else if |lines| == 1 then lines[0]
    else lines[0] + "\n" + Unlines(lines[1..])
  }

  /** No line holds a line break. */
  predicate SingleLines(lines: seq<string>) {
    forall i :: 0 <= i < |lines| ==> '\n' !in lines[i]
  }

  /** `HideLine` applied to every line. */
  function HideEach(lines: seq<string>): (r: seq<string>)
    requires SingleLines(lines)
    ensures |r| == |lines|
    ensures forall i :: 0 <= i < |r| ==> r[i] == HideLine(lines[i])
    decreases |lines|
  {
    if |lines| == 0 then [] else [HideLine(lines[0])] + HideEach(lines[1..])
  }

  /** `hide_brackets` works line by line: on text made of single lines it
      gives the join of each line with its span hidden. */
  lemma {:induction false} HideBracketsByLine(lines: seq<string>)
    requires SingleLines(lines)
    ensures HideBrackets(Unlines(lines)) == Unlines(HideEach(lines))
    decreases |lines|
  {
    if |lines| > 1 {
      var tail := lines[1..];
      assert SingleLines(tail) by {
        forall i | 0 <= i < |tail| ensures '\n' !in tail[i] {
          assert tail[i] == lines[i + 1];
        }
      }
      HideBracketsStep(lines[0], Unlines(tail));
      HideBracketsByLine(tail);
      assert HideEach(lines)[1..] == HideEach(tail);
    }
  }

  /** `get_range`: the numbers `0, 1, ..., n - 1`; empty when `n` is not
      positive, as Python's `range`. */
  function GetRange(n: int): (r: seq<int>)
    ensures |r| == if n > 0 then n else 0
    ensures forall i :: 0 <= i < |r| ==> r[i] == i
    decreases if n > 0 then n else 0
  {
    if n <= 0 then [] else GetRange(n - 1) + [n - 1]
  }
}
