/** String helpers with Python's semantics: prefix test, substring test,
    `str.split(sep)`, `str.split()` on whitespace, `sep.join(parts)`,
    `str.strip() == ""`, and the slicing used by the original program. */
module Text {

  predicate StartsWith(s: string, prefix: string)
  {
    |prefix| <= |s| && s[..|prefix|] == prefix
  }

  /** `sub in s` for two strings: `sub` starts at some position of `s`. */
  predicate Contains(s: string, sub: string)
    decreases |s|
  {
    StartsWith(s, sub) || (s != [] && Contains(s[1..], sub))
  }

  /** `s[n:]` for a non-negative `n`: empty when `n` is past the end. */
  function DropPrefix(s: string, n: nat): (r: string)
    ensures |r| == if n <= |s| then |s| - n else 0
    ensures n <= |s| ==> s == s[..n] + r
  {
    if n <= |s| then s[n..] else ""
  }

  /** `s[1:-1]`: drops the first and the last character (empty for short strings). */
  function StripEnds(s: string): (r: string)
    ensures |s| >= 2 ==> |r| == |s| - 2 && s == [s[0]] + r + [s[|s| - 1]]
    ensures |s| < 2 ==> r == ""
  {
    if |s| >= 2 then s[1..|s| - 1] else ""
  }

  /** Position of the first occurrence of `c` (Python's `s.index(c)`). */
  function IndexOf(s: string, c: char): (i: nat)
    requires c in s
    ensures i < |s| && s[i] == c && c !in s[..i]
  {
    if s[0] == c then 0 else 1 + IndexOf(s[1..], c)
  }

  /** `sep.join(parts)`. */
  function Join(parts: seq<string>, sep: string): string
  {
    if |parts| == 0 then ""
    else if |parts| == 1 then parts[0]
    else parts[0] + sep + Join(parts[1..], sep)
  }

  /** Joining one more part adds the separator and the part. */
  lemma {:induction false} JoinSnoc(parts: seq<string>, x: string, sep: string)
    requires |parts| >= 1
    ensures Join(parts + [x], sep) == Join(parts, sep) + sep + x
    decreases |parts|
  {
    if |parts| > 1 {
      assert (parts + [x])[1..] == parts[1..] + [x];
      JoinSnoc(parts[1..], x, sep);
    }
  }

  /** `s.split(c)` for a one-character separator: always at least one part,
      and empty parts are kept. */
  function Split(s: string, c: char): (parts: seq<string>)
    ensures |parts| >= 1
    ensures forall p :: p in parts ==> c !in p
    decreases |s|
  {
    if c !in s then [s]
    else
      var i := IndexOf(s, c);
      [s[..i]] + Split(s[i + 1..], c)
  }

  /** Splitting on a separator and joining again with the same separator gives back the string. */
  lemma {:induction false} JoinSplit(s: string, c: char)
    ensures Join(Split(s, c), [c]) == s
    decreases |s|
  {
    if c in s {
      var i := IndexOf(s, c);
      var rest := Split(s[i + 1..], c);
      var parts := [s[..i]] + rest;
      assert Split(s, c) == parts;
      assert parts[0] == s[..i] && parts[1..] == rest;
      calc {
        Join(parts, [c]);
        s[..i] + [c] + Join(rest, [c]);
        { JoinSplit(s[i + 1..], c); }
        s[..i] + [c] + s[i + 1..];
        s;
      }
    }
  }

  /** Joining parts that do not contain the separator and splitting again
      gives back the parts. */
  lemma {:induction false} SplitJoin(parts: seq<string>, c: char)
    requires |parts| >= 1 && forall p :: p in parts ==> c !in p
    ensures Split(Join(parts, [c]), c) == parts
    decreases |parts|
  {
    var s := Join(parts, [c]);
    if |parts| == 1 {
      assert s == parts[0];
    } else {
      var a, rest := parts[0], parts[1..];
      assert forall p :: p in rest ==> p in parts;
      SplitJoin(rest, c);
      var j := Join(rest, [c]);
      assert s == a + [c] + j;
      Around(a, c, j);
      assert c !in a by { assert a in parts; }
      IndexOfFirst(s, c, |a|);
      assert Split(s, c) == [a] + Split(j, c);
    }
  }

  /** The pieces around one character in the middle of a string. */
  lemma {:induction false} Around(a: string, c: char, b: string)
    ensures (a + [c] + b)[..|a|] == a && (a + [c] + b)[|a|] == c && (a + [c] + b)[|a| + 1..] == b
  {
  }

  /** The first occurrence is found where the character occurs and did not
      occur before. */
  lemma {:induction false} IndexOfFirst(s: string, c: char, i: nat)
    requires i < |s| && s[i] == c && c !in s[..i]
    ensures IndexOf(s, c) == i
    decreases i
  {
    if i > 0 {
      assert s[0] != c by { assert s[0] == s[..i][0]; }
      assert s[1..][..i - 1] == s[1..i];
      assert forall k :: 0 <= k < i - 1 ==> s[1..i][k] == s[..i][k + 1];
      IndexOfFirst(s[1..], c, i - 1);
    }
  }

  /** The whitespace characters Python 3's `str.split()` and `str.strip()`
      act on (those for which `str.isspace()` holds): the ASCII controls
      tab to carriage return and the four separators after them, the
      space, next-line, no-break space, the Ogham and the typographic
      spaces, the line and paragraph separators, the narrow no-break and
      mathematical spaces, and the ideographic space. */
  predicate IsSpace(ch: char)
  {
    || ('\U{9}' <= ch <= '\U{D}')
    || ('\U{1C}' <= ch <= '\U{20}')
    || ch == '\U{85}' || ch == '\U{A0}' || ch == '\U{1680}'
    || ('\U{2000}' <= ch <= '\U{200A}')
    || ch == '\U{2028}' || ch == '\U{2029}' || ch == '\U{202F}' || ch == '\U{205F}' || ch == '\U{3000}'
  }

  /** `s.strip() == ""`. */
  predicate IsBlank(s: string)
  {
    forall i :: 0 <= i < |s| ==> IsSpace(s[i])
  }

  /** A non-empty run of non-whitespace characters: what `str.split()` yields. */
  predicate IsToken(t: string)
  {
    |t| > 0 && forall i :: 0 <= i < |t| ==> !IsSpace(t[i])
  }

  /** Length of the leading run of non-whitespace characters. */
  function TokenLen(s: string): (n: nat)
    ensures n <= |s|
    ensures forall i :: 0 <= i < n ==> !IsSpace(s[i])
    ensures n < |s| ==> IsSpace(s[n])
  {
    if s == [] || IsSpace(s[0]) then 0 else 1 + TokenLen(s[1..])
  }

  /** `s.split()`: the whitespace-separated tokens, in order, without empty ones. */
  function SplitWs(s: string): (ts: seq<string>)
    decreases |s|
  {
    if s == [] then []
    else if IsSpace(s[0]) then SplitWs(s[1..])
    else
      var n := TokenLen(s);
      [s[..n]] + SplitWs(s[n..])
  }

  /** Every piece `str.split()` yields is a token. */
  lemma {:induction false} SplitWsTokens(s: string)
    ensures forall t :: t in SplitWs(s) ==> IsToken(t)
    decreases |s|
  {
    if s != [] {
      if IsSpace(s[0]) {
        SplitWsTokens(s[1..]);
      } else {
        SplitWsTokens(s[TokenLen(s)..]);
      }
    }
  }

  lemma {:induction false} TokenLenOfToken(a: string, b: string)
    requires forall i :: 0 <= i < |a| ==> !IsSpace(a[i])
    requires b == [] || IsSpace(b[0])
    ensures TokenLen(a + b) == |a|
  {
    if a != [] {
      assert (a + b)[1..] == a[1..] + b;
      TokenLenOfToken(a[1..], b);
    } else {
      assert a + b == b;
    }
  }

  /** Joining tokens with single spaces and splitting on whitespace gives the tokens back:
      the round trip behind rewriting a space-separated id list. */
  lemma {:induction false} SplitWsJoin(ts: seq<string>)
    requires forall t :: t in ts ==> IsToken(t)
    ensures SplitWs(Join(ts, " ")) == ts
  {
    if |ts| == 1 {
      var t := ts[0];
      assert t in ts;
      TokenLenOfToken(t, []);
      assert t + [] == t;
      assert t[|t|..] == [];
    } else if |ts| > 1 {
      var t, rest := ts[0], Join(ts[1..], " ");
      var j := t + " " + rest;
      assert t in ts;
      TokenLenOfToken(t, " " + rest);
      assert j == t + (" " + rest);
      assert j[..|t|] == t;
      assert j[|t|..] == " " + rest;
      assert (" " + rest)[1..] == rest;
      SplitWsJoin(ts[1..]);
    }
  }

  /** `str.lower()` on ASCII letters (the strings it is applied to here are ASCII). */
  function Lower(s: string): (r: string)
    ensures |r| == |s|
    ensures forall i :: 0 <= i < |s| && !('A' <= s[i] <= 'Z') ==> r[i] == s[i]
    ensures forall i :: 0 <= i < |s| && 'A' <= s[i] <= 'Z' ==> r[i] as int == s[i] as int + 32
    decreases |s|
  {
    if s == [] then ""
    else [if 'A' <= s[0] <= 'Z' then (s[0] as int + 32) as char else s[0]] + Lower(s[1..])
  }

  /** `str.upper()` on ASCII letters. */
  function Upper(s: string): (r: string)
    ensures |r| == |s|
    ensures forall i :: 0 <= i < |s| && !('a' <= s[i] <= 'z') ==> r[i] == s[i]
    ensures forall i :: 0 <= i < |s| && 'a' <= s[i] <= 'z' ==> r[i] as int == s[i] as int - 32
    decreases |s|
  {
    if s == [] then ""
    else [if 'a' <= s[0] <= 'z' then (s[0] as int - 32) as char else s[0]] + Upper(s[1..])
  }
}
