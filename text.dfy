/** The JavaScript string operations the tag field goes through:
    `String.prototype.trim`, `split` on a one-character separator and
    `Array.prototype.join`. Strings are sequences of UTF-16 code units in
    JavaScript; here they are sequences of `char`. */
module Text {

  /** The characters `trim` removes: ECMAScript WhiteSpace (tab, vertical tab,
      form feed, space, no-break space, byte order mark and every Unicode
      space separator) and LineTerminator (LF, CR, LS, PS). */
  predicate IsWhitespace(c: char) {
    c == '\t' || c == '\n' || c == '\U{000B}' || c == '\U{000C}' || c == '\r' || c == ' '
    || c == '\U{00A0}' || c == '\U{1680}' || ('\U{2000}' <= c <= '\U{200A}')
    || c == '\U{2028}' || c == '\U{2029}' || c == '\U{202F}' || c == '\U{205F}'
    || c == '\U{3000}' || c == '\U{FEFF}'
  }

  predicate AllWhitespace(s: string) {
    forall k :: 0 <= k < |s| ==> IsWhitespace(s[k])
  }

  /** Neither the first nor the last character is whitespace. */
  predicate Trimmed(s: string) {
    s == [] || (!IsWhitespace(s[0]) && !IsWhitespace(s[|s| - 1]))
  }

  /** How many whitespace characters `s` starts with. */
  function LeadingSpace(s: string): (n: nat)
    ensures n <= |s|
  {
    if s != [] && IsWhitespace(s[0]) then 1 + LeadingSpace(s[1..]) else 0
  }

  /** How many whitespace characters `s` ends with. */
  function TrailingSpace(s: string): (n: nat)
    ensures n <= |s|
  {
    if s != [] && IsWhitespace(s[|s| - 1]) then 1 + TrailingSpace(s[..|s| - 1]) else 0
  }

  /** The leading run is whitespace, and what follows it is not. */
  lemma {:induction false} LeadingSpaceFacts(s: string)
    ensures AllWhitespace(s[..LeadingSpace(s)])
    ensures LeadingSpace(s) == |s| || !IsWhitespace(s[LeadingSpace(s)])
  {
    if s != [] && IsWhitespace(s[0]) {
      LeadingSpaceFacts(s[1..]);
      var n := LeadingSpace(s[1..]);
      assert s[..n + 1] == [s[0]] + s[1..][..n];
    }
  }

  /** The trailing run is whitespace, and what precedes it is not. */
  lemma {:induction false} TrailingSpaceFacts(s: string)
    ensures AllWhitespace(s[|s| - TrailingSpace(s)..])
    ensures TrailingSpace(s) == |s| || !IsWhitespace(s[|s| - TrailingSpace(s) - 1])
  {
    if s != [] && IsWhitespace(s[|s| - 1]) {
      var p := s[..|s| - 1];
      TrailingSpaceFacts(p);
      var n := TrailingSpace(p);
      assert s[|s| - (n + 1)..] == p[|p| - n..] + [s[|s| - 1]];
    }
  }

  /** A whitespace prefix followed by a non-whitespace character (or the end)
      is the leading run. */
  lemma {:induction false} LeadingSpaceAt(s: string, i: nat)
    requires i <= |s| && AllWhitespace(s[..i]) && (i == |s| || !IsWhitespace(s[i]))
    ensures LeadingSpace(s) == i
    decreases i
  {
    if i > 0 {
      assert s[..i][0] == s[0];
      assert s[1..][..i - 1] == s[..i][1..];
      LeadingSpaceAt(s[1..], i - 1);
    }
  }

  /** A whitespace suffix preceded by a non-whitespace character (or the
      start) is the trailing run. */
  lemma {:induction false} TrailingSpaceAt(s: string, j: nat)
    requires j <= |s| && AllWhitespace(s[j..]) && (j == 0 || !IsWhitespace(s[j - 1]))
    ensures TrailingSpace(s) == |s| - j
    decreases |s| - j
  {
    if j < |s| {
      assert s[j..][|s| - 1 - j] == s[|s| - 1];
      var p := s[..|s| - 1];
      assert p[j..] == s[j..][..|s| - 1 - j];
      TrailingSpaceAt(p, j);
    }
  }

  /** `s.trim()`: what is left once the whitespace at both ends is removed. */
  function Trim(s: string): (r: string)
    ensures |r| <= |s| && Trimmed(r)
  {
    var t := s[LeadingSpace(s)..];
    LeadingSpaceFacts(s);
    TrailingSpaceFacts(t);
    t[..|t| - TrailingSpace(t)]
  }

  /** The trimmed text is an infix of `s` and everything cut off is whitespace. */
  lemma TrimIsInfix(s: string)
    ensures exists i :: 0 <= i <= |s| - |Trim(s)| && Trim(s) == s[i..i + |Trim(s)|]
                        && AllWhitespace(s[..i]) && AllWhitespace(s[i + |Trim(s)|..])
  {
    var i := LeadingSpace(s);
    var t := s[i..];
    var r := Trim(s);
    LeadingSpaceFacts(s);
    TrailingSpaceFacts(t);
    assert r == t[..|r|];
    assert r == s[i..i + |r|];
    assert s[i + |r|..] == t[|t| - TrailingSpace(t)..];
  }

  /** Trimming only removes characters. */
  lemma TrimSubset(s: string, c: char)
    requires c !in s
    ensures c !in Trim(s)
  {
    var i := LeadingSpace(s);
    assert Trim(s) == s[i..i + |Trim(s)|];
  }

  /** Whitespace followed by whitespace is whitespace. */
  lemma AllWhitespaceAppend(a: string, b: string)
    requires AllWhitespace(a) && AllWhitespace(b)
    ensures AllWhitespace(a + b)
  {
    assert forall k :: 0 <= k < |a + b| ==> (a + b)[k] == if k < |a| then a[k] else b[k - |a|];
  }

  /** Blank text trims to the empty string. */
  lemma TrimBlank(s: string)
    requires AllWhitespace(s)
    ensures Trim(s) == []
  {
    assert s[..|s|] == s;
    LeadingSpaceAt(s, |s|);
  }

  /** `trim` is the only way to cut whitespace off both ends of `s` so that no
      whitespace is left at either end: any such cut gives `Trim(s)`. */
  lemma TrimUnique(s: string, i: nat, j: nat)
    requires i <= j <= |s|
    requires AllWhitespace(s[..i]) && AllWhitespace(s[j..]) && Trimmed(s[i..j])
    ensures Trim(s) == s[i..j]
  {
    if i == j {
      AllWhitespaceAppend(s[..i], s[j..]);
      assert s == s[..i] + s[j..];
      TrimBlank(s);
    } else {
      TrimCut(s, i, j);
    }
  }

  lemma TrimCut(s: string, i: nat, j: nat)
    requires i < j <= |s|
    requires AllWhitespace(s[..i]) && AllWhitespace(s[j..]) && Trimmed(s[i..j])
    ensures Trim(s) == s[i..j]
  {
    assert s[i] == s[i..j][0];
    LeadingSpaceAt(s, i);
    var t := s[i..];
    assert t[j - i..] == s[j..];
    assert t[j - i - 1] == s[i..j][j - i - 1];
    TrailingSpaceAt(t, j - i);
    assert t[..j - i] == s[i..j];
  }

  /** Trimming twice is trimming once. */
  lemma TrimIdempotent(s: string)
    ensures Trim(Trim(s)) == Trim(s)
  {
    var r := Trim(s);
    assert r[0..|r|] == r;
    TrimUnique(r, 0, |r|);
  }

  /** `s.trim()` is empty exactly when `s` is all whitespace, so
      `tagsInput.trim()` is falsy exactly for blank input. */
  lemma TrimEmptyIff(s: string)
    ensures Trim(s) == [] <==> AllWhitespace(s)
  {
    if AllWhitespace(s) {
      TrimBlank(s);
    }
    var i := LeadingSpace(s);
    var t := s[i..];
    LeadingSpaceFacts(s);
    TrailingSpaceFacts(t);
    if Trim(s) == [] {
      assert t[|t| - TrailingSpace(t)..] == t;
      AllWhitespaceAppend(s[..i], t);
      assert s == s[..i] + t;
    }
  }

  /** A trimmed string preceded by whitespace trims back to itself. */
  lemma TrimPadded(pad: string, t: string)
    requires AllWhitespace(pad) && Trimmed(t)
    ensures Trim(pad + t) == t
  {
    var s := pad + t;
    assert s[..|pad|] == pad && s[|pad|..|s|] == t && s[|s|..] == [];
    TrimUnique(s, |pad|, |s|);
  }

  /** `s.split(sep)`: the pieces between separators, in order. No piece holds
      a separator. */
  function Split(s: string, sep: char): (r: seq<string>)
    ensures |r| >= 1
    ensures forall k :: 0 <= k < |r| ==> sep !in r[k]
  {
    if s == [] then [""]
    else
      var rest := Split(s[1..], sep);
      if s[0] == sep then [""] + rest
      else [[s[0]] + rest[0]] + rest[1..]
  }

  /** There is one more piece than there are separators. */
  lemma {:induction false} SplitLength(s: string, sep: char)
    ensures |Split(s, sep)| == multiset(s)[sep] + 1
  {
    if s != [] {
      SplitLength(s[1..], sep);
      assert s == [s[0]] + s[1..];
    }
  }

  /** `parts.join(sep)`: the parts with the separator between neighbours; the
      text starts with the first part. */
  function Join(parts: seq<string>, sep: string): (r: string)
    ensures |parts| >= 1 ==> parts[0] <= r
  {
    if |parts| == 0 then ""
    else if |parts| == 1 then parts[0]
    else parts[0] + sep + Join(parts[1..], sep)
  }

  /** Text without a separator is a single piece. */
  lemma {:induction false} SplitNone(s: string, sep: char)
    requires sep !in s
    ensures Split(s, sep) == [s]
  {
    if s != [] {
      SplitNone(s[1..], sep);
      assert [s[0]] + s[1..] == s;
    }
  }

  /** A separator-free piece, the separator, then more text: the piece comes
      first, then the pieces of the rest. */
  lemma {:induction false} SplitAtSeparator(p: string, rest: string, sep: char)
    requires sep !in p
    ensures Split(p + [sep] + rest, sep) == [p] + Split(rest, sep)
    decreases |p|
  {
    var s := p + [sep] + rest;
    if p == [] {
      assert s == [sep] + rest;
    } else {
      SplitAtSeparator(p[1..], rest, sep);
      assert s[1..] == p[1..] + [sep] + rest;
      assert [p[0]] + p[1..] == p;
    }
  }

  /** Joining the pieces of a split with the same separator restores the text. */
  lemma {:induction false} JoinSplit(s: string, sep: char)
    ensures Join(Split(s, sep), [sep]) == s
  {
    if s != [] {
      JoinSplit(s[1..], sep);
      if s[0] == sep {
        JoinSplitAtSeparator(s, sep);
      } else {
        JoinSplitAtOther(s, sep);
      }
    }
  }

  /** The step of `JoinSplit` when the text starts with the separator. */
  lemma JoinSplitAtSeparator(s: string, sep: char)
    requires s != [] && s[0] == sep && Join(Split(s[1..], sep), [sep]) == s[1..]
    ensures Join(Split(s, sep), [sep]) == s
  {
    var rest := Split(s[1..], sep);
    assert Split(s, sep) == [""] + rest;
    JoinAfterEmpty(rest, [sep]);
    assert s == [sep] + s[1..];
  }

  /** The step of `JoinSplit` when the text starts with another character. */
  lemma JoinSplitAtOther(s: string, sep: char)
    requires s != [] && s[0] != sep && Join(Split(s[1..], sep), [sep]) == s[1..]
    ensures Join(Split(s, sep), [sep]) == s
  {
    var rest := Split(s[1..], sep);
    assert Split(s, sep) == [[s[0]] + rest[0]] + rest[1..];
    JoinExtendHead(s[0], rest, [sep]);
    assert s == [s[0]] + s[1..];
  }

  /** An empty first piece contributes only its separator. */
  lemma JoinAfterEmpty(parts: seq<string>, sep: string)
    requires |parts| >= 1
    ensures Join([""] + parts, sep) == sep + Join(parts, sep)
  {
    assert ([""] + parts)[1..] == parts;
  }

  /** A character glued to the front of the first piece ends up in front of
      the joined text. */
  lemma JoinExtendHead(c: char, parts: seq<string>, sep: string)
    requires |parts| >= 1
    ensures Join([[c] + parts[0]] + parts[1..], sep) == [c] + Join(parts, sep)
  {
    var q := [[c] + parts[0]] + parts[1..];
    assert q[1..] == parts[1..];
    if |parts| > 1 {
      assert ([c] + parts[0]) + sep + Join(parts[1..], sep) == [c] + (parts[0] + sep + Join(parts[1..], sep));
    }
  }

  /** Splitting separator-free pieces joined by the separator gives the pieces
      back. */
  lemma {:induction false} SplitJoin(parts: seq<string>, sep: char)
    requires |parts| >= 1
    requires forall k :: 0 <= k < |parts| ==> sep !in parts[k]
    ensures Split(Join(parts, [sep]), sep) == parts
  {
    if |parts| == 1 {
      SplitNone(parts[0], sep);
    } else {
      SplitJoin(parts[1..], sep);
      SplitAtSeparator(parts[0], Join(parts[1..], [sep]), sep);
      assert [parts[0]] + parts[1..] == parts;
    }
  }
}
