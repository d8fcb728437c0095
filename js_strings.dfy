/**
 * The JavaScript string built-ins the actions rely on: `trim`, `toLowerCase`,
 * `indexOf`, `lastIndexOf` and `split(/\r?\n/)`, on strings as sequences of
 * characters.
 */
module JsStrings {

  /** The characters `String.prototype.trim` removes: ECMAScript WhiteSpace and LineTerminator. */
  predicate IsSpace(c: char) {
    c in SpaceChars || '\U{2000}' <= c <= '\U{200A}'
  }

  /** The white space and line terminator characters outside the range U+2000 to U+200A. */
  const SpaceChars: set<char> :=
    {' ', '\t', '\n', '\r', '\U{B}', '\U{C}', '\U{A0}', '\U{1680}',
     '\U{2028}', '\U{2029}', '\U{202F}', '\U{205F}', '\U{3000}', '\U{FEFF}'}

  /** A string that `trim` leaves as it is: it neither starts nor ends with white space. */
  predicate Trimmed(s: string) {
    s == [] || (!IsSpace(s[0]) && !IsSpace(s[|s| - 1]))
  }

  /** The number of white space characters `s` starts with. */
  function LeadingSpaces(s: string): (n: nat)
    ensures n <= |s|
    ensures forall k :: 0 <= k < n ==> IsSpace(s[k])
    ensures n == |s| || !IsSpace(s[n])
    decreases |s|
  {
    if s != [] && IsSpace(s[0]) then
      var m := LeadingSpaces(s[1..]);
      assert forall k :: 0 < k < m + 1 ==> s[k] == s[1..][k - 1];
      m + 1
    else 0
  }

  /** Where the white space `s` ends with begins. */
  function TrailingStart(s: string): (n: nat)
    ensures n <= |s|
    ensures forall k :: n <= k < |s| ==> IsSpace(s[k])
    ensures n == 0 || !IsSpace(s[n - 1])
    decreases |s|
  {
    if s != [] && IsSpace(s[|s| - 1]) then
      var m := TrailingStart(s[..|s| - 1]);
      assert forall k :: m <= k < |s| - 1 ==> s[k] == s[..|s| - 1][k];
      m
    else |s|
  }

  /** `s.trimStart()`: the leading white space is cut away. */
  function TrimStart(s: string): string {
    s[LeadingSpaces(s)..]
  }

  /** `s.trimEnd()`: the trailing white space is cut away. */
  function TrimEnd(s: string): string {
    s[..TrailingStart(s)]
  }

  /**
   * `s.trim()`: the result is a contiguous piece of `s` with no white space at
   * either end, and everything cut away on either side is white space.
   */
  function Trim(s: string): (r: string)
    ensures Trimmed(r)
    ensures var i := LeadingSpaces(s);
            && i + |r| <= |s|
            && (forall k :: 0 <= k < i ==> IsSpace(s[k]))
            && (forall k :: i + |r| <= k < |s| ==> IsSpace(s[k]))
  {
    var t := TrimStart(s);
    var r := TrimEnd(t);
    var i := LeadingSpaces(s);
    assert r != [] ==> r[0] == s[i] && r[|r| - 1] == t[|r| - 1];
    assert forall k :: i + |r| <= k < |s| ==> s[k] == t[k - i];
    r
  }

  /** The k-th character of the trimmed string is the one that many places after the leading white space. */
  lemma TrimAt(s: string, k: nat)
    requires k < |Trim(s)|
    ensures Trim(s)[k] == s[LeadingSpaces(s) + k]
  {
  }

  /** Trimming only removes characters. */
  lemma TrimKeeps(s: string, c: char)
    requires c in Trim(s)
    ensures c in s
  {
    var r := Trim(s);
    var i := LeadingSpaces(s);
    var k :| 0 <= k < |r| && r[k] == c;
    TrimAt(s, k);
    assert s[i + k] == c;
  }

  /** A string with no white space at its ends is its own trim. */
  lemma {:induction false} TrimOfTrimmed(s: string)
    requires Trimmed(s)
    ensures Trim(s) == s
  {
    assert LeadingSpaces(s) == 0;
    assert TrailingStart(s) == |s|;
    assert TrimStart(s) == s;
  }

  /** Trimming twice is trimming once. */
  lemma TrimIdempotent(s: string)
    ensures Trim(Trim(s)) == Trim(s)
  {
    TrimOfTrimmed(Trim(s));
  }

  /** `toLowerCase` on one character, for the ASCII range. */
  function LowerChar(c: char): char {
    if 'A' <= c <= 'Z' then (c as int + 32) as char else c
  }

  /** `s.toLowerCase()`, letter by letter. */
  function Lower(s: string): (r: string)
    ensures |r| == |s|
    ensures forall i :: 0 <= i < |s| ==> r[i] == LowerChar(s[i])
  {
    seq(|s|, i requires 0 <= i < |s| => LowerChar(s[i]))
  }

  lemma LowerIdempotent(s: string)
    ensures Lower(Lower(s)) == Lower(s)
  {
  }

  /** Lower-casing never turns white space into a letter or back. */
  lemma LowerCharSpace(c: char)
    ensures IsSpace(LowerChar(c)) == IsSpace(c)
  {
  }

  lemma LowerDropFirst(s: string)
    requires s != []
    ensures Lower(s)[1..] == Lower(s[1..])
  {
  }

  lemma LowerDropLast(s: string)
    requires s != []
    ensures Lower(s)[..|s| - 1] == Lower(s[..|s| - 1])
  {
  }

  /** Lower-casing keeps the leading white space. */
  lemma {:induction false} LowerLeadingSpaces(s: string)
    ensures LeadingSpaces(Lower(s)) == LeadingSpaces(s)
    decreases |s|
  {
    if s != [] {
      LowerCharSpace(s[0]);
      if IsSpace(s[0]) {
        LowerDropFirst(s);
        LowerLeadingSpaces(s[1..]);
      }
    }
  }

  /** Lower-casing keeps the trailing white space. */
  lemma {:induction false} LowerTrailingStart(s: string)
    ensures TrailingStart(Lower(s)) == TrailingStart(s)
    decreases |s|
  {
    if s != [] {
      LowerCharSpace(s[|s| - 1]);
      if IsSpace(s[|s| - 1]) {
        LowerDropLast(s);
        LowerTrailingStart(s[..|s| - 1]);
      }
    }
  }

  lemma LowerTrimStart(s: string)
    ensures Lower(TrimStart(s)) == TrimStart(Lower(s))
  {
    LowerLeadingSpaces(s);
  }

  lemma LowerTrimEnd(s: string)
    ensures Lower(TrimEnd(s)) == TrimEnd(Lower(s))
  {
    LowerTrailingStart(s);
  }

  /** Lower-casing and trimming commute. */
  lemma LowerTrim(s: string)
    ensures Lower(Trim(s)) == Trim(Lower(s))
  {
    LowerTrimEnd(TrimStart(s));
    LowerTrimStart(s);
  }

  /** Trimming and lower-casing a string already trimmed and lower-cased changes nothing. */
  lemma LowerTrimStable(s: string)
    ensures Lower(Trim(Lower(Trim(s)))) == Lower(Trim(s))
  {
    var t := Trim(s);
    TrimIdempotent(s);
    LowerTrim(t);
    LowerIdempotent(t);
  }

  /** Leading white space before a string that does not start with white space is all `trimStart` removes. */
  lemma {:induction false} LeadingPadding(pad: string, u: string)
    requires forall i :: 0 <= i < |pad| ==> IsSpace(pad[i])
    requires u != [] && !IsSpace(u[0])
    ensures LeadingSpaces(pad + u) == |pad|
    decreases |pad|
  {
    if pad != [] {
      assert (pad + u)[1..] == pad[1..] + u;
      LeadingPadding(pad[1..], u);
    }
  }

  /** Trailing white space after a string that does not end with white space is all `trimEnd` removes. */
  lemma {:induction false} TrailingPadding(u: string, pad: string)
    requires forall i :: 0 <= i < |pad| ==> IsSpace(pad[i])
    requires u != [] && !IsSpace(u[|u| - 1])
    ensures TrailingStart(u + pad) == |u|
    decreases |pad|
  {
    if pad != [] {
      var last := |pad| - 1;
      assert (u + pad)[..|u + pad| - 1] == u + pad[..last];
      TrailingPadding(u, pad[..last]);
    }
  }

  /** White space added on either side of a trimmed, non-empty string is cut away again. */
  lemma TrimPadded(pre: string, s: string, post: string)
    requires forall i :: 0 <= i < |pre| ==> IsSpace(pre[i])
    requires forall i :: 0 <= i < |post| ==> IsSpace(post[i])
    requires s != [] && Trimmed(s)
    ensures Trim(pre + s + post) == s
  {
    assert pre + s + post == pre + (s + post);
    LeadingPadding(pre, s + post);
    assert TrimStart(pre + s + post) == s + post;
    TrailingPadding(s, post);
    assert TrimEnd(s + post) == (s + post)[..|s|];
  }

  /** `s.indexOf(c)`: the first position of `c`, or -1 when there is none. */
  function IndexOf(s: string, c: char): (r: int)
    ensures r == -1 <==> c !in s
    ensures r != -1 ==> 0 <= r < |s| && s[r] == c && c !in s[..r]
  {
    if s == [] then -1
    else if s[0] == c then 0
    else
      var k := IndexOf(s[1..], c);
      assert s[1..][..if k < 0 then 0 else k] == s[1..1 + if k < 0 then 0 else k];
      if k < 0 then -1 else k + 1
  }

  /** The first `c` of `pre + [c] + post` is the one after `pre`, when `pre` has none. */
  lemma IndexOfAfter(pre: string, c: char, post: string)
    requires c !in pre
    ensures IndexOf(pre + [c] + post, c) == |pre|
  {
    var s := pre + [c] + post;
    assert s[|pre|] == c;
    assert s[..|pre|] == pre;
  }

  /** `s.lastIndexOf(c)`: the last position of `c`, or -1 when there is none. */
  function LastIndexOf(s: string, c: char): (r: int)
    ensures r == -1 <==> c !in s
    ensures r != -1 ==> 0 <= r < |s| && s[r] == c && c !in s[r + 1..]
  {
    if s == [] then -1
    else if s[|s| - 1] == c then |s| - 1
    else
      var k := LastIndexOf(s[..|s| - 1], c);
      assert k != -1 ==> s[k + 1..] == s[..|s| - 1][k + 1..] + [s[|s| - 1]];
      k
  }

  /** One piece of `split(/\r?\n/)`: the `\r` of a `\r\n` separator is not part of the line. */
  function DropCarriageReturn(s: string): string {
    if s != [] && s[|s| - 1] == '\r' then s[..|s| - 1] else s
  }

  /** `text.split(/\r?\n/)`. */
  function SplitLines(text: string): (lines: seq<string>)
    ensures |lines| >= 1
    ensures forall i :: 0 <= i < |lines| ==> '\n' !in lines[i]
    decreases |text|
  {
    var k := IndexOf(text, '\n');
    if k < 0 then [text]
    else [DropCarriageReturn(text[..k])] + SplitLines(text[k + 1..])
  }

  /** Lines put back together with `\n` between them. */
  function JoinLines(lines: seq<string>): string
    requires |lines| >= 1
  {
    if |lines| == 1 then lines[0] else lines[0] + "\n" + JoinLines(lines[1..])
  }

  /** The first line break of `head + "\n" + rest` is the one after `head`, when `head` has none. */
  lemma FirstBreak(head: string, rest: string)
    requires '\n' !in head
    ensures var text := head + "\n" + rest;
      && IndexOf(text, '\n') == |head|
      && text[..|head|] == head && text[|head| + 1..] == rest
  {
    var text := head + "\n" + rest;
    assert text[..|head|] == head;
    assert text[|head|] == '\n';
    assert text[|head| + 1..] == rest;
  }

  /** A line with no break and no trailing `\r`, followed by `\n`, splits off as it is. */
  lemma SplitStep(head: string, rest: string)
    requires '\n' !in head
    requires head == [] || head[|head| - 1] != '\r'
    ensures SplitLines(head + "\n" + rest) == [head] + SplitLines(rest)
  {
    FirstBreak(head, rest);
    assert DropCarriageReturn(head) == head;
  }

  /** A line with no break, followed by `\r\n`, splits off without the `\r`. */
  lemma SplitCrLf(head: string, rest: string)
    requires '\n' !in head
    ensures SplitLines(head + "\r\n" + rest) == [head] + SplitLines(rest)
  {
    var line := head + "\r";
    assert '\n' !in line;
    assert head + "\r\n" + rest == line + "\n" + rest;
    FirstBreak(line, rest);
    assert DropCarriageReturn(line) == head;
  }

  /**
   * Splitting undoes joining, provided no line holds a line break and no line
   * but the last ends with `\r` (which the splitter would take for a `\r\n`).
   */
  lemma {:induction false} SplitJoinLines(lines: seq<string>)
    requires |lines| >= 1
    requires forall i :: 0 <= i < |lines| ==> '\n' !in lines[i]
    requires forall i :: 0 <= i < |lines| - 1 ==> lines[i] == [] || lines[i][|lines[i]| - 1] != '\r'
    ensures SplitLines(JoinLines(lines)) == lines
  {
    if |lines| > 1 {
      var head := lines[0];
      var rest := JoinLines(lines[1..]);
      assert JoinLines(lines) == head + "\n" + rest;
      SplitStep(head, rest);
      SplitJoinLines(lines[1..]);
      assert lines == [head] + lines[1..];
    }
  }
}
