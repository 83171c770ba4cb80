/** Text primitives shared by the backend (Rust `str`) and the frontend
    (JavaScript `String`): trimming, splitting, word splitting, line splitting,
    substring search and ASCII lower-casing. Strings are sequences of characters. */
module Strings {

  /** The white-space characters that both Rust's `char::is_whitespace` and
      JavaScript's `String.prototype.trim` recognise. */
  const WHITESPACE: set<char> := {
    '\t', '\n', '\U{000B}', '\U{000C}', '\r', ' ', '\U{00A0}', '\U{1680}',
    '\U{2000}', '\U{2001}', '\U{2002}', '\U{2003}', '\U{2004}', '\U{2005}',
    '\U{2006}', '\U{2007}', '\U{2008}', '\U{2009}', '\U{200A}', '\U{2028}',
    '\U{2029}', '\U{202F}', '\U{205F}', '\U{3000}'
  }

  predicate IsWhitespace(c: char) { c in WHITESPACE }

  /** No character of `s` is in `cs`. */
  predicate Avoids(s: string, cs: set<char>) {
    forall j :: 0 <= j < |s| ==> s[j] !in cs
  }

  /** `s` neither starts nor ends with white space. */
  predicate IsTrimmed(s: string) {
    s == [] || (!IsWhitespace(s[0]) && !IsWhitespace(s[|s| - 1]))
  }

  predicate StartsWith(s: string, prefix: string) {
    |prefix| <= |s| && s[..|prefix|] == prefix
  }

  /** `sub` occurs somewhere in `s` (Rust `str::contains`, JavaScript `includes`). */
  predicate Contains(s: string, sub: string)
    decreases |s|
  {
    StartsWith(s, sub) || (s != [] && Contains(s[1..], sub))
  }

  /** Rust's `trim_start_matches` with a set of characters: drops the longest
      prefix made only of characters in `cs`. */
  function TrimStartMatches(s: string, cs: set<char>): (r: string)
    ensures |r| <= |s| && r == s[|s| - |r|..]
    ensures forall i :: 0 <= i < |s| - |r| ==> s[i] in cs
    ensures r != [] ==> r[0] !in cs
  {
    if s != [] && s[0] in cs then TrimStartMatches(s[1..], cs) else s
  }

  function TrimStart(s: string): (r: string)
    ensures |r| <= |s| && r == s[|s| - |r|..]
    ensures forall i :: 0 <= i < |s| - |r| ==> IsWhitespace(s[i])
    ensures r != [] ==> !IsWhitespace(r[0])
  {
    TrimStartMatches(s, WHITESPACE)
  }

  function TrimEnd(s: string): (r: string)
    ensures |r| <= |s| && r == s[..|r|]
    ensures forall i :: |r| <= i < |s| ==> IsWhitespace(s[i])
    ensures r != [] ==> !IsWhitespace(r[|r| - 1])
  {
    if s != [] && IsWhitespace(s[|s| - 1]) then TrimEnd(s[..|s| - 1]) else s
  }

  /** Rust `str::trim` and JavaScript `String.prototype.trim`: the slice of `s`
      left after removing white space at both ends. */
  function Trim(s: string): (r: string)
    ensures IsTrimmed(r)
    ensures |r| <= |s|
    ensures exists i :: 0 <= i <= |s| && StartsWith(s[i..], r)
    ensures r == [] <==> forall i :: 0 <= i < |s| ==> IsWhitespace(s[i])
  {
    var t := TrimStart(s);
    var r := TrimEnd(t);
    assert StartsWith(s[|s| - |t|..], r);
    AllWhitespaceWhenTrimmedAway(s, t, r);
    r
  }

  /** Trimming removes white space at the two ends and nothing else: the text
      is the trimmed text with blank text before and after it. */
  lemma TrimRemovesOnlyEnds(s: string) returns (k: nat)
    ensures TrimmedAt(s, k, Trim(s))
  {
    k := |s| - |TrimStart(s)|;
    TrimmedAtEnds(s, TrimStart(s), Trim(s));
  }

  lemma TrimmedAtEnds(s: string, t: string, r: string)
    requires t == TrimStart(s) && r == TrimEnd(t)
    ensures TrimmedAt(s, |s| - |t|, r)
  {
    BlankBefore(s, |s| - |t|);
    BlankAfter(t, |r|);
    TrimmedAtParts(s, |s| - |t|, t, r);
  }

  /** Blank text before a suffix and blank text after a prefix of that suffix. */
  lemma TrimmedAtParts(s: string, k: nat, t: string, r: string)
    requires k <= |s| && t == s[k..] && |r| <= |t| && r == t[..|r|]
    requires IsBlank(s[..k]) && IsBlank(t[|r|..])
    ensures TrimmedAt(s, k, r)
  {
    assert s[k..][..|r|] == s[k..k + |r|];
    assert s[k..][|r|..] == s[k + |r|..];
  }

  lemma BlankBefore(s: string, k: nat)
    requires k <= |s| && forall i :: 0 <= i < k ==> IsWhitespace(s[i])
    ensures IsBlank(s[..k])
  {
    var before := s[..k];
    assert forall i :: 0 <= i < |before| ==> before[i] == s[i];
  }

  lemma BlankAfter(s: string, k: nat)
    requires k <= |s| && forall i :: k <= i < |s| ==> IsWhitespace(s[i])
    ensures IsBlank(s[k..])
  {
    var after := s[k..];
    assert forall i :: 0 <= i < |after| ==> after[i] == s[k + i];
  }

  /** `s` is `r` with the blank text `s[..k]` before it and blank text after it:
      only white space at the two ends was removed. */
  predicate TrimmedAt(s: string, k: int, r: string) {
    0 <= k && k + |r| <= |s| && s[k..k + |r|] == r && IsBlank(s[..k]) && IsBlank(s[k + |r|..])
  }

  lemma AllWhitespaceWhenTrimmedAway(s: string, t: string, r: string)
    requires t == TrimStart(s) && r == TrimEnd(t)
    ensures r == [] ==> forall i :: 0 <= i < |s| ==> IsWhitespace(s[i])
  {
    if r == [] {
      forall i | 0 <= i < |s| ensures IsWhitespace(s[i]) {
        if i >= |s| - |t| { assert s[i] == t[i - (|s| - |t|)]; }
      }
    }
  }

  /** `s` is made only of white space: JavaScript's `!s.trim()` and Rust's
      `s.trim().is_empty()`, as `BlankIsTrimmedAway` shows. */
  predicate IsBlank(s: string) {
    forall i :: 0 <= i < |s| ==> IsWhitespace(s[i])
  }

  lemma BlankIsTrimmedAway(s: string)
    ensures IsBlank(s) <==> Trim(s) == []
  {
  }

  lemma {:induction false} TrimmedIsFixpoint(s: string)
    requires IsTrimmed(s)
    ensures Trim(s) == s
  {
    assert TrimStart(s) == s;
    assert TrimEnd(s) == s;
  }

  /** Rust `str::split` with a character set, and JavaScript `split` with a
      one-character separator: the pieces between separators, so one more
      piece than there are separators. */
  function Split(s: string, seps: set<char>): (parts: seq<string>)
    ensures |parts| >= 1
    ensures forall i :: 0 <= i < |parts| ==> Avoids(parts[i], seps)
    decreases |s|
  {
    if s == [] then [""]
    else
      var rest := Split(s[1..], seps);
      if s[0] in seps then [""] + rest
      else
        assert Avoids(rest[0], seps);
        [[s[0]] + rest[0]] + rest[1..]
  }

  /** The pieces are exactly the runs between separators: there is one more
      piece than there are separators, and putting each separator back between
      its two pieces gives the text again. */
  lemma {:induction false} SplitRejoins(s: string, seps: set<char>)
    ensures |Split(s, seps)| == |SeparatorsIn(s, seps)| + 1
    ensures Interleave(Split(s, seps), SeparatorsIn(s, seps)) == s
    decreases |s|
  {
    if s != [] {
      var rest := Split(s[1..], seps);
      var between := SeparatorsIn(s[1..], seps);
      SplitRejoins(s[1..], seps);
      if s[0] in seps {
        assert ([""] + rest)[1..] == rest && ([s[0]] + between)[1..] == between;
      } else {
        assert SeparatorsIn(s, seps) == between;
        InterleaveHead([s[0]], rest[0], rest[1..], between);
        assert [rest[0]] + rest[1..] == rest;
        assert s == [s[0]] + s[1..];
      }
    }
  }

  /** The characters of `s` that are in `seps`, in order: the separators a
      split consumes. */
  function SeparatorsIn(s: string, seps: set<char>): (between: string)
    ensures forall i :: 0 <= i < |between| ==> between[i] in seps
    decreases |s|
  {
    if s == [] then []
    else (if s[0] in seps then [s[0]] else []) + SeparatorsIn(s[1..], seps)
  }

  /** `parts[0] + [between[0]] + parts[1] + … + parts[n]`: pieces put back
      together with the separators that stood between them. */
  function Interleave(parts: seq<string>, between: string): string
    requires |parts| == |between| + 1
    decreases |between|
  {
    if between == [] then parts[0]
    else parts[0] + [between[0]] + Interleave(parts[1..], between[1..])
  }

  lemma InterleaveHead(x: string, y: string, tail: seq<string>, between: string)
    requires |tail| == |between|
    ensures Interleave([x + y] + tail, between) == x + Interleave([y] + tail, between)
  {
    if between != [] {
      assert ([x + y] + tail)[1..] == tail == ([y] + tail)[1..];
    }
  }

  /** Rust `join` and JavaScript `join`. */
  function JoinWith(parts: seq<string>, sep: string): string
    decreases |parts|
  {
    if |parts| == 0 then ""
    else if |parts| == 1 then parts[0]
    else parts[0] + sep + JoinWith(parts[1..], sep)
  }

  lemma JoinWithHead(x: string, y: string, tail: seq<string>, sep: string)
    ensures JoinWith([x + y] + tail, sep) == x + JoinWith([y] + tail, sep)
  {
    if |tail| > 0 {
      assert ([x + y] + tail)[1..] == tail == ([y] + tail)[1..];
    }
  }

  /** Splitting on one character and joining the pieces back with it gives the
      original text. */
  lemma {:induction false} JoinSplit(s: string, c: char)
    ensures JoinWith(Split(s, {c}), [c]) == s
    decreases |s|
  {
    if s != [] {
      var rest := Split(s[1..], {c});
      JoinSplit(s[1..], c);
      if s[0] == c {
        assert ([""] + rest)[1..] == rest;
      } else {
        JoinWithHead([s[0]], rest[0], rest[1..], [c]);
        assert [rest[0]] + rest[1..] == rest;
      }
    }
  }

  /** The parts that are not the empty string, in order. */
  function NonEmpty(parts: seq<string>): (r: seq<string>)
    ensures |r| <= |parts|
    ensures forall i :: 0 <= i < |r| ==> r[i] != [] && r[i] in parts
    decreases |parts|
  {
    if parts == [] then []
    else if parts[0] == [] then NonEmpty(parts[1..])
    else [parts[0]] + NonEmpty(parts[1..])
  }

  /** Filtering works piece by piece, so the kept parts stay in their order. */
  lemma {:induction false} NonEmptyAppend(a: seq<string>, b: seq<string>)
    ensures NonEmpty(a + b) == NonEmpty(a) + NonEmpty(b)
    decreases |a|
  {
    if a == [] {
      assert a + b == b;
    } else {
      assert (a + b)[0] == a[0] && (a + b)[1..] == a[1..] + b;
      NonEmptyAppend(a[1..], b);
    }
  }

  /** All the parts written one after the other. */
  function Concat(parts: seq<string>): string
    decreases |parts|
  {
    if parts == [] then [] else parts[0] + Concat(parts[1..])
  }

  /** The characters of `s` that are not in `cs`, in order. */
  function Without(s: string, cs: set<char>): string
    decreases |s|
  {
    if s == [] then [] else (if s[0] in cs then [] else [s[0]]) + Without(s[1..], cs)
  }

  /** Splitting loses exactly the separators. */
  lemma {:induction false} ConcatSplit(s: string, seps: set<char>)
    ensures Concat(Split(s, seps)) == Without(s, seps)
    decreases |s|
  {
    if s != [] {
      var rest := Split(s[1..], seps);
      ConcatSplit(s[1..], seps);
      if s[0] in seps {
        assert ([""] + rest)[1..] == rest;
      } else {
        var parts := [[s[0]] + rest[0]] + rest[1..];
        assert parts[1..] == rest[1..];
        assert Concat(rest) == rest[0] + Concat(rest[1..]);
        assert Concat(parts) == [s[0]] + (rest[0] + Concat(rest[1..]));
      }
    }
  }

  /** Dropping empty parts does not change their concatenation. */
  lemma {:induction false} ConcatNonEmpty(parts: seq<string>)
    ensures Concat(NonEmpty(parts)) == Concat(parts)
    decreases |parts|
  {
    if parts != [] {
      ConcatNonEmpty(parts[1..]);
      if parts[0] != [] {
        assert ([parts[0]] + NonEmpty(parts[1..]))[1..] == NonEmpty(parts[1..]);
      }
    }
  }

  /** Rust `split_whitespace`: the maximal runs of non-white-space characters. */
  function Words(s: string): (words: seq<string>)
    ensures forall i :: 0 <= i < |words| ==> words[i] != [] && Avoids(words[i], WHITESPACE)
  {
    NonEmpty(Split(s, WHITESPACE))
  }

  /** Written one after the other, the words are exactly the text's visible
      characters, in order; a text has no words exactly when it is blank. */
  lemma WordsAreVisibleCharacters(s: string)
    ensures Concat(Words(s)) == Without(s, WHITESPACE)
    ensures Words(s) == [] <==> IsBlank(s)
  {
    ConcatSplit(s, WHITESPACE);
    ConcatNonEmpty(Split(s, WHITESPACE));
    WithoutIsEmpty(s, WHITESPACE);
    if Words(s) != [] {
      assert Concat(Words(s)) == Words(s)[0] + Concat(Words(s)[1..]);
    }
  }

  lemma {:induction false} WithoutIsEmpty(s: string, cs: set<char>)
    ensures Without(s, cs) == [] <==> forall i :: 0 <= i < |s| ==> s[i] in cs
    decreases |s|
  {
    if s != [] {
      WithoutIsEmpty(s[1..], cs);
      assert forall i :: 1 <= i < |s| ==> s[i] == s[1..][i - 1];
    }
  }

  function LowerChar(c: char): char {
    if 'A' <= c <= 'Z' then (c as int + 32) as char else c
  }

  /** `to_lowercase` restricted to ASCII letters. */
  function ToLower(s: string): (r: string)
    ensures |r| == |s|
    ensures forall i :: 0 <= i < |s| ==> r[i] == LowerChar(s[i])
  {
    seq(|s|, i requires 0 <= i < |s| => LowerChar(s[i]))
  }

  /** Drops one carriage return that ended a line terminated by "\r\n". */
  function StripCarriageReturn(line: string): string {
    if line != [] && line[|line| - 1] == '\r' then line[..|line| - 1] else line
  }

  /** Rust `str::lines`, given the pieces of the text between newlines: every
      piece followed by a newline is a line (minus a trailing '\r'); the last
      piece is a line only when it is not empty. */
  function LinesOf(pieces: seq<string>): (lines: seq<string>)
    requires |pieces| >= 1
    ensures |lines| == |pieces| || (|lines| == |pieces| - 1 && pieces[|pieces| - 1] == [])
    decreases |pieces|
  {
    if |pieces| == 1 then (if pieces[0] == [] then [] else [pieces[0]])
    else [StripCarriageReturn(pieces[0])] + LinesOf(pieces[1..])
  }

  /** Rust `str::lines`: lines end at "\n" or "\r\n"; a final line ending is
      optional, so "a\n" and "a" both give ["a"] and "" gives no line. */
  function Lines(s: string): (lines: seq<string>)
    ensures forall i :: 0 <= i < |lines| ==> Avoids(lines[i], {'\n'})
  {
    var pieces := Split(s, {'\n'});
    LinesAvoidNewline(pieces);
    LinesOf(pieces)
  }

  /** Joining the lines with "\n" gives back a text without carriage returns,
      less its final newline. */
  lemma LinesRejoin(s: string)
    requires Avoids(s, {'\r'})
    ensures JoinWith(Lines(s), "\n") == if s != [] && s[|s| - 1] == '\n' then s[..|s| - 1] else s
  {
    var pieces := Split(s, {'\n'});
    JoinSplit(s, '\n');
    SplitKeepsAvoiding(s, {'\n'}, {'\r'});
    LinesOfPlain(pieces);
    JoinWithoutEmptyLast(pieces, s);
  }

  /** Dropping an empty last piece drops the final newline of the joined text. */
  lemma JoinWithoutEmptyLast(pieces: seq<string>, s: string)
    requires |pieces| >= 1 && JoinWith(pieces, "\n") == s
    requires Avoids(pieces[|pieces| - 1], {'\n'})
    ensures JoinWith(if pieces[|pieces| - 1] == [] then pieces[..|pieces| - 1] else pieces, "\n")
            == if s != [] && s[|s| - 1] == '\n' then s[..|s| - 1] else s
  {
    var n := |pieces|;
    var last := pieces[n - 1];
    if n > 1 {
      JoinWithLast(pieces[..n - 1], last, "\n");
      assert pieces[..n - 1] + [last] == pieces;
      if last != [] {
        assert s[|s| - 1] == last[|last| - 1];
      }
    }
  }

  /** Pieces of a text avoid whatever the text avoids. */
  lemma {:induction false} SplitKeepsAvoiding(s: string, seps: set<char>, cs: set<char>)
    requires Avoids(s, cs)
    ensures forall i :: 0 <= i < |Split(s, seps)| ==> Avoids(Split(s, seps)[i], cs)
    decreases |s|
  {
    if s != [] {
      assert Avoids(s[1..], cs) by {
        forall j | 0 <= j < |s| - 1 ensures s[1..][j] !in cs { assert s[1..][j] == s[j + 1]; }
      }
      SplitKeepsAvoiding(s[1..], seps, cs);
    }
  }

  /** Without carriage returns, the lines are the pieces, less an empty last one. */
  lemma {:induction false} LinesOfPlain(pieces: seq<string>)
    requires |pieces| >= 1
    requires forall i :: 0 <= i < |pieces| ==> Avoids(pieces[i], {'\r'})
    ensures LinesOf(pieces) == if pieces[|pieces| - 1] == [] then pieces[..|pieces| - 1] else pieces
    decreases |pieces|
  {
    if |pieces| > 1 {
      LinesOfPlain(pieces[1..]);
      var p := pieces[0];
      assert p != [] ==> p[|p| - 1] != '\r';
      assert StripCarriageReturn(p) == p;
      assert [p] + pieces[1..][..|pieces| - 2] == pieces[..|pieces| - 1];
      assert [p] + pieces[1..] == pieces;
    }
  }

  lemma {:induction false} JoinWithLast(parts: seq<string>, x: string, sep: string)
    requires parts != []
    ensures JoinWith(parts + [x], sep) == JoinWith(parts, sep) + sep + x
    decreases |parts|
  {
    assert (parts + [x])[0] == parts[0];
    if |parts| > 1 {
      assert (parts + [x])[1..] == parts[1..] + [x];
      JoinWithLast(parts[1..], x, sep);
    } else {
      assert (parts + [x])[1..] == [x];
    }
  }

  lemma {:induction false} LinesAvoidNewline(pieces: seq<string>)
    requires |pieces| >= 1
    requires forall i :: 0 <= i < |pieces| ==> Avoids(pieces[i], {'\n'})
    ensures forall i :: 0 <= i < |LinesOf(pieces)| ==> Avoids(LinesOf(pieces)[i], {'\n'})
    decreases |pieces|
  {
    if |pieces| > 1 {
      LinesAvoidNewline(pieces[1..]);
      assert Avoids(pieces[0], {'\n'});
      var h := StripCarriageReturn(pieces[0]);
      assert Avoids(h, {'\n'});
    }
  }

  /** A text that contains `sub` after dropping a prefix contains `sub`. */
  lemma {:induction false} ContainsInSuffix(s: string, k: nat, sub: string)
    requires k <= |s| && Contains(s[k..], sub)
    ensures Contains(s, sub)
    decreases k
  {
    if k > 0 {
      assert s[1..][k - 1..] == s[k..];
      ContainsInSuffix(s[1..], k - 1, sub);
    }
  }

  /** Whatever contains `p + q` also contains `q`. */
  lemma {:induction false} ContainsTail(s: string, p: string, q: string)
    requires Contains(s, p + q)
    ensures Contains(s, q)
    decreases |s|
  {
    if StartsWith(s, p + q) {
      assert s[|p|..][..|q|] == (p + q)[|p|..] == q;
      assert StartsWith(s[|p|..], q);
      ContainsInSuffix(s, |p|, q);
    } else {
      ContainsTail(s[1..], p, q);
    }
  }

  /** A text contains every slice of itself. */
  lemma ContainsSlice(s: string, k: nat, n: nat)
    requires k + n <= |s|
    ensures Contains(s, s[k..k + n])
  {
    assert StartsWith(s[k..], s[k..k + n]);
    ContainsInSuffix(s, k, s[k..k + n]);
  }

  /** Where a contained text occurs. */
  lemma {:induction false} ContainsAt(s: string, sub: string) returns (k: nat)
    requires Contains(s, sub)
    ensures k + |sub| <= |s| && s[k..k + |sub|] == sub
    decreases |s|
  {
    if StartsWith(s, sub) {
      k := 0;
    } else {
      var j := ContainsAt(s[1..], sub);
      assert s[1..][j..j + |sub|] == s[j + 1..j + 1 + |sub|];
      k := j + 1;
    }
  }

  /** Containment is transitive. */
  lemma ContainsTransitive(a: string, b: string, c: string)
    requires Contains(a, b) && Contains(b, c)
    ensures Contains(a, c)
  {
    var i := ContainsAt(a, b);
    var j := ContainsAt(b, c);
    forall t | 0 <= t < |c| ensures c[t] == a[i + j + t] {
      assert c[t] == b[j + t] == a[i + j + t];
    }
    assert c == a[i + j..i + j + |c|];
    ContainsSlice(a, i + j, |c|);
  }

  /** Every piece of a split occurs in the text, the first one at its start. */
  lemma {:induction false} SplitPiecesOccur(s: string, seps: set<char>)
    ensures StartsWith(s, Split(s, seps)[0])
    ensures forall i :: 0 <= i < |Split(s, seps)| ==> Contains(s, Split(s, seps)[i])
    decreases |s|
  {
    if s != [] {
      var rest := Split(s[1..], seps);
      SplitPiecesOccur(s[1..], seps);
      forall i | 0 <= i < |rest| ensures Contains(s, rest[i]) {
        ContainsInSuffix(s, 1, rest[i]);
      }
      if s[0] !in seps {
        assert Split(s, seps)[0] == [s[0]] + rest[0];
        assert s == [s[0]] + s[1..];
      }
    }
  }

  /** The trim of a text occurs in it. */
  lemma TrimOccurs(s: string)
    ensures Contains(s, Trim(s))
  {
    var r := Trim(s);
    var i :| 0 <= i <= |s| && StartsWith(s[i..], r);
    ContainsInSuffix(s, i, r);
  }
}
