/**
 * Strings as the browser scripts see them: the character classes their
 * regular expressions use, String.prototype.trim, toLowerCase (ASCII part),
 * and String.prototype.split with the `pop()` idiom built on it.
 */
module Options {
  datatype Option<T> = None | Some(value: T)
}

module Text {

  predicate IsLower(c: char) { 'a' <= c <= 'z' }
  predicate IsUpper(c: char) { 'A' <= c <= 'Z' }
  predicate IsDigit(c: char) { '0' <= c <= '9' }
  predicate IsLetter(c: char) { IsLower(c) || IsUpper(c) }
  predicate IsAlnum(c: char) { IsLetter(c) || IsDigit(c) }
  /** The regex class \w */
  predicate IsWordChar(c: char) { IsAlnum(c) || c == '_' }

  /** White space and line terminators: what trim() strips and what \s matches */
  predicate IsWhitespace(c: char) {
    var n := c as int;
    n == 0x09 || n == 0x0A || n == 0x0B || n == 0x0C || n == 0x0D || n == 0x20 || n == 0xA0 ||
    n == 0x1680 || (0x2000 <= n <= 0x200A) || n == 0x2028 || n == 0x2029 || n == 0x202F ||
    n == 0x205F || n == 0x3000 || n == 0xFEFF
  }

  predicate AllChars(s: string, p: char -> bool) {
    forall k :: 0 <= k < |s| ==> p(s[k])
  }

  predicate AnyChar(s: string, p: char -> bool) {
    exists k :: 0 <= k < |s| && p(s[k])
  }

  /** ASCII lower-casing of one character; other characters are kept */
  function LowerChar(c: char): (r: char)
    ensures IsUpper(c) ==> IsLower(r) && r as int == c as int + 32
    ensures !IsUpper(c) ==> r == c
  {
    if IsUpper(c) then (c as int + 32) as char else c
  }

  function ToLower(s: string): (r: string)
    ensures |r| == |s|
    ensures forall k :: 0 <= k < |s| ==> r[k] == LowerChar(s[k])
  {
    seq(|s|, k requires 0 <= k < |s| => LowerChar(s[k]))
  }

  /** Drops leading white space */
  function TrimStart(s: string): (r: string)
    ensures |r| <= |s| && r == s[|s| - |r|..]
    ensures forall k :: 0 <= k < |s| - |r| ==> IsWhitespace(s[k])
    ensures r == [] || !IsWhitespace(r[0])
  {
    if s != [] && IsWhitespace(s[0]) then TrimStart(s[1..]) else s
  }

  /** Drops trailing white space */
  function TrimEnd(s: string): (r: string)
    ensures |r| <= |s| && r == s[..|r|]
    ensures forall k :: |r| <= k < |s| ==> IsWhitespace(s[k])
    ensures r == [] || !IsWhitespace(r[|r| - 1])
  {
    if s != [] && IsWhitespace(s[|s| - 1]) then TrimEnd(s[..|s| - 1]) else s
  }

  /** String.prototype.trim */
  function Trim(s: string): string {
    TrimEnd(TrimStart(s))
  }

  /** Trim returns a slice of its input */
  lemma TrimIsSlice(s: string)
    ensures var i := |s| - |TrimStart(s)|; i + |Trim(s)| <= |s| && Trim(s) == s[i..i + |Trim(s)|]
  {
  }

  /** Trim is empty exactly for all-blank input */
  lemma TrimEmptyIffBlank(s: string)
    ensures Trim(s) == [] <==> AllChars(s, IsWhitespace)
  {
  }

  /** Neither the first nor the last character is white space */
  predicate NoBlankEnds(s: string) {
    s == [] || (!IsWhitespace(s[0]) && !IsWhitespace(s[|s| - 1]))
  }

  /** Trim has no blank ends */
  lemma TrimEnds(s: string)
    ensures NoBlankEnds(Trim(s))
  {
    var a := TrimStart(s);
    var r := TrimEnd(a);
    if r != [] {
      assert r[0] == a[0];
    }
  }

  /** A string without blank ends is its own trim */
  lemma TrimOfTrimmed(s: string)
    requires NoBlankEnds(s)
    ensures Trim(s) == s
  {
  }

  /** Trimming is idempotent */
  lemma TrimIdempotent(s: string)
    ensures Trim(Trim(s)) == Trim(s)
  {
    TrimEnds(s);
    TrimOfTrimmed(Trim(s));
  }

  /** Trim only drops characters */
  lemma TrimChars(s: string)
    ensures forall c :: c in Trim(s) ==> c in s
  {
    TrimIsSlice(s);
  }

  /** Leading white space does not change the trim */
  lemma {:induction false} TrimBlankPrefix(pad: string, s: string)
    requires AllChars(pad, IsWhitespace)
    ensures Trim(pad + s) == Trim(s)
  {
    if pad != [] {
      assert (pad + s)[1..] == pad[1..] + s;
      TrimBlankPrefix(pad[1..], s);
    } else {
      assert pad + s == s;
    }
  }

  /** Index of the first occurrence of c, or -1 (String.prototype.indexOf) */
  function IndexOf(s: string, c: char): (r: int)
    ensures -1 <= r < |s|
    ensures r == -1 <==> c !in s
    ensures r >= 0 ==> s[r] == c && c !in s[..r]
  {
    if s == [] then -1
    else if s[0] == c then 0
    else
      var k := IndexOf(s[1..], c);
      assert s[1..][..if k < 0 then 0 else k] == s[1..if k < 0 then 1 else k + 1];
      if k < 0 then -1 else k + 1
  }

  lemma IndexOfFirst(a: string, c: char, b: string)
    requires c !in a
    ensures IndexOf(a + [c] + b, c) == |a|
  {
    var s := a + [c] + b;
    var r := IndexOf(s, c);
    assert s[|a|] == c;
  }

  /** Index of the last occurrence of c, or -1 (String.prototype.lastIndexOf) */
  function LastIndexOf(s: string, c: char): (r: int)
    ensures -1 <= r < |s|
    ensures r == -1 <==> c !in s
    ensures r >= 0 ==> s[r] == c && c !in s[r + 1..]
  {
    if s == [] then -1
    else if s[|s| - 1] == c then |s| - 1
    else
      var k := LastIndexOf(s[..|s| - 1], c);
      DropLast(s, k);
      k
  }

  /** s is its prefix without the last character followed by that character, from any cut in the prefix */
  lemma DropLast(s: string, k: int)
    requires s != [] && -1 <= k < |s| - 1
    ensures s == s[..|s| - 1] + [s[|s| - 1]]
    ensures s[k + 1..] == s[..|s| - 1][k + 1..] + [s[|s| - 1]]
  {
  }

  lemma LastIndexOfLast(a: string, c: char, b: string)
    requires c !in b
    ensures LastIndexOf(a + [c] + b, c) == |a|
  {
    var s := a + [c] + b;
    assert s[|a|] == c;
    assert s[|a| + 1..] == b;
  }

  /** The characters of s that `drop` does not select, in order (a global replace with '') */
  function Without(s: string, drop: char -> bool): (r: string)
    ensures |r| <= |s|
    ensures forall c :: c in r ==> c in s && !drop(c)
  {
    if s == [] then []
    else if drop(s[0]) then Without(s[1..], drop)
    else [s[0]] + Without(s[1..], drop)
  }

  /** Nothing to drop: the string is unchanged */
  lemma {:induction false} WithoutNothing(s: string, drop: char -> bool)
    requires forall c :: c in s ==> !drop(c)
    ensures Without(s, drop) == s
  {
    if s != [] {
      WithoutNothing(s[1..], drop);
    }
  }

  /** Removing characters distributes over concatenation */
  lemma {:induction false} WithoutConcat(a: string, b: string, drop: char -> bool)
    ensures Without(a + b, drop) == Without(a, drop) + Without(b, drop)
  {
    if a != [] {
      assert (a + b)[1..] == a[1..] + b;
      WithoutConcat(a[1..], b, drop);
    } else {
      assert a + b == b;
    }
  }

  /** String.prototype.split with a one-character separator */
  function Split(s: string, sep: char): (r: seq<string>)
    ensures |r| >= 1
    decreases |s|
  {
    var i := IndexOf(s, sep);
    if i < 0 then [s] else [s[..i]] + Split(s[i + 1..], sep)
  }

  /** No piece of a split contains the separator */
  lemma {:induction false} SplitPiecesOmitSeparator(s: string, sep: char)
    ensures forall k :: 0 <= k < |Split(s, sep)| ==> sep !in Split(s, sep)[k]
    decreases |s|
  {
    var i := IndexOf(s, sep);
    if i >= 0 {
      var rest := Split(s[i + 1..], sep);
      var r := [s[..i]] + rest;
      assert Split(s, sep) == r;
      SplitPiecesOmitSeparator(s[i + 1..], sep);
      forall k | 0 <= k < |r| ensures sep !in r[k] {
        if k > 0 {
          assert r[k] == rest[k - 1];
          assert sep !in rest[k - 1];
        } else {
          assert r[0] == s[..i];
          assert sep !in s[..i];
        }
      }
    } else {
      assert Split(s, sep) == [s];
    }
  }

  /** Array.prototype.join */
  function Join(parts: seq<string>, sep: string): string {
    if |parts| == 0 then ""
    else if |parts| == 1 then parts[0]
    else parts[0] + sep + Join(parts[1..], sep)
  }

  lemma JoinCons(x: string, rest: seq<string>, sep: string)
    requires |rest| >= 1
    ensures Join([x] + rest, sep) == x + sep + Join(rest, sep)
  {
    assert ([x] + rest)[1..] == rest;
  }

  /** A string is the part before position i, the character at i and the part after it */
  lemma SliceAround(s: string, i: nat)
    requires i < |s|
    ensures s == s[..i] + [s[i]] + s[i + 1..]
  {
  }

  /** Joining the pieces of a split with the same separator gives back the string */
  lemma {:induction false} JoinSplit(s: string, sep: char)
    ensures Join(Split(s, sep), [sep]) == s
    decreases |s|
  {
    var i := IndexOf(s, sep);
    if i >= 0 {
      var head, tail := s[..i], s[i + 1..];
      var rest := Split(tail, sep);
      assert Split(s, sep) == [head] + rest;
      JoinSplit(tail, sep);
      JoinCons(head, rest, [sep]);
      SliceAround(s, i);
    } else {
      assert Split(s, sep) == [s];
    }
  }

  /** Each string of xs with pad in front */
  function PadAll(xs: seq<string>, pad: string): (r: seq<string>)
    ensures |r| == |xs| && forall k :: 0 <= k < |xs| ==> r[k] == pad + xs[k]
  {
    seq(|xs|, k requires 0 <= k < |xs| => pad + xs[k])
  }

  /**
   * Splitting a join whose separator is `sep` followed by `pad` gives the
   * parts back, every one but the first with pad in front (q stands before
   * the first part).
   */
  lemma {:induction false} SplitJoinPadded(q: string, parts: seq<string>, sep: char, pad: string)
    requires |parts| >= 1 && sep !in q && sep !in pad
    requires forall k :: 0 <= k < |parts| ==> sep !in parts[k]
    ensures Split(q + Join(parts, [sep] + pad), sep) == [q + parts[0]] + PadAll(parts[1..], pad)
    decreases |parts|
  {
    if |parts| == 1 {
      assert sep !in q + parts[0];
      assert IndexOf(q + parts[0], sep) == -1;
    } else {
      var tail := Join(parts[1..], [sep] + pad);
      var s := q + Join(parts, [sep] + pad);
      assert s == (q + parts[0]) + [sep] + (pad + tail);
      assert sep !in q + parts[0];
      IndexOfFirst(q + parts[0], sep, pad + tail);
      var i := |q + parts[0]|;
      assert s[..i] == q + parts[0];
      assert s[i + 1..] == pad + tail;
      SplitJoinPadded(pad, parts[1..], sep, pad);
      assert Split(s, sep) == [q + parts[0]] + ([pad + parts[1]] + PadAll(parts[2..], pad));
      assert parts[1..][1..] == parts[2..];
      assert [pad + parts[1]] + PadAll(parts[2..], pad) == PadAll(parts[1..], pad);
    }
  }

  /** `s.split(sep).pop()`: the text after the last separator, or all of s when there is none */
  function LastSegment(s: string, sep: char): (r: string)
    ensures sep !in r
    ensures |r| <= |s| && r == s[|s| - |r|..]
  {
    var j := LastIndexOf(s, sep);
    if j < 0 then s else s[j + 1..]
  }

  /** Whatever stands before the last separator does not matter */
  lemma LastSegmentAfterSeparator(p: string, sep: char, e: string)
    requires sep !in e
    ensures LastSegment(p + [sep] + e, sep) == e
  {
    var s := p + [sep] + e;
    LastIndexOfLast(p, sep, e);
    assert s[|p| + 1..] == e;
  }

  /** Without a separator the whole string is the last piece */
  lemma LastSegmentNoSeparator(s: string, sep: char)
    requires sep !in s
    ensures LastSegment(s, sep) == s
  {
  }
}
