/** The JavaScript string built-ins the sync code relies on (`trim`,
    `indexOf`, `includes`, `startsWith`, `split`, `join`, `replace`), with
    their JavaScript meaning, and the facts about them the other modules use. */
module Text {

  /** The characters `\s` matches in a JavaScript regular expression, which
      are also the ones `String.prototype.trim` strips: ECMAScript's
      WhiteSpace and LineTerminator code points. */
  const Spaces: set<char> := {
    '\t', '\n', '\U{000B}', '\U{000C}', '\r', ' ', '\U{00A0}', '\U{1680}',
    '\U{2000}', '\U{2001}', '\U{2002}', '\U{2003}', '\U{2004}', '\U{2005}',
    '\U{2006}', '\U{2007}', '\U{2008}', '\U{2009}', '\U{200A}',
    '\U{2028}', '\U{2029}', '\U{202F}', '\U{205F}', '\U{3000}', '\U{FEFF}'
  }

  predicate IsSpace(c: char) {
    c in Spaces
  }

  predicate NoSpace(s: string) {
    forall i :: 0 <= i < |s| ==> !IsSpace(s[i])
  }

  /** `s.trimStart()`: the suffix of `s` left after its leading spaces. */
  function TrimStart(s: string): (r: string)
    ensures |r| <= |s|
    ensures forall i :: 0 <= i < |s| - |r| ==> IsSpace(s[i])
    ensures r == [] || !IsSpace(r[0])
  {
    if s != [] && IsSpace(s[0]) then TrimStart(s[1..]) else s
  }

  /** What `trimStart` leaves is a suffix of the string. */
  lemma {:induction false} TrimStartIsSuffix(s: string)
    ensures TrimStart(s) == s[|s| - |TrimStart(s)|..]
    decreases |s|
  {
    if s != [] && IsSpace(s[0]) {
      TrimStartIsSuffix(s[1..]);
      assert s[1..][|s| - 1 - |TrimStart(s[1..])|..] == s[|s| - |TrimStart(s)|..];
    }
  }

  /** `s.trimEnd()`: the prefix of `s` left after its trailing spaces. */
  function TrimEnd(s: string): (r: string)
    ensures |r| <= |s| && r == s[..|r|]
    ensures forall i :: |r| <= i < |s| ==> IsSpace(s[i])
    ensures r == [] || !IsSpace(r[|r| - 1])
  {
    if s != [] && IsSpace(s[|s| - 1]) then TrimEnd(s[..|s| - 1]) else s
  }

  /** `s.trim()`: what is left neither starts nor ends with a space. */
  function Trim(s: string): (r: string)
    ensures r == [] || (!IsSpace(r[0]) && !IsSpace(r[|r| - 1]))
  {
    var a := TrimStart(s);
    var t := TrimEnd(a);
    assert t == [] || t[0] == a[0];
    t
  }

  /** `!s.trim()`: the string is empty or all spaces. */
  predicate IsBlank(s: string) {
    Trim(s) == ""
  }

  lemma BlankIffAllSpaces(s: string)
    ensures IsBlank(s) <==> forall i :: 0 <= i < |s| ==> IsSpace(s[i])
  {
    var t := TrimStart(s);
    TrimStartIsSuffix(s);
    if IsBlank(s) {
      forall i | 0 <= i < |s| ensures IsSpace(s[i]) {
        if i >= |s| - |t| {
          assert s[i] == t[i - (|s| - |t|)];
        }
      }
    }
  }

  /** The string occurs in `s` starting at index `k`. */
  predicate OccursAt(s: string, p: string, k: int) {
    0 <= k && k + |p| <= |s| && s[k..k + |p|] == p
  }

  /** `s.indexOf(p, from)`: the first index at or after `from` at which `p`
      occurs, or -1. */
  function IndexFrom(s: string, p: string, from: nat): (r: int)
    ensures r == -1 || (from <= r && OccursAt(s, p, r))
    decreases |s| - from
  {
    if from + |p| > |s| then -1
    else if OccursAt(s, p, from) then from
    else IndexFrom(s, p, from + 1)
  }

  /** `s.indexOf(p)`. */
  function IndexOf(s: string, p: string): (r: int)
    ensures r == -1 || OccursAt(s, p, r)
  {
    IndexFrom(s, p, 0)
  }

  /** `p` occurs nowhere between `from` and the index `indexOf` reports, and
      nowhere after `from` when it reports -1. */
  lemma {:induction false} IndexFromIsFirst(s: string, p: string, from: nat, k: int)
    requires from <= k && OccursAt(s, p, k)
    ensures IndexFrom(s, p, from) != -1 && IndexFrom(s, p, from) <= k
    decreases |s| - from
  {
    if !OccursAt(s, p, from) {
      IndexFromIsFirst(s, p, from + 1, k);
    }
  }

  lemma IndexOfIsFirst(s: string, p: string, k: int)
    requires OccursAt(s, p, k)
    ensures IndexOf(s, p) != -1 && IndexOf(s, p) <= k
  {
    IndexFromIsFirst(s, p, 0, k);
  }

  /** `s.includes(p)`. */
  predicate Contains(s: string, p: string) {
    IndexOf(s, p) != -1
  }

  lemma ContainsAt(s: string, p: string, k: int)
    requires OccursAt(s, p, k)
    ensures Contains(s, p)
  {
    IndexOfIsFirst(s, p, k);
  }

  /** `s.startsWith(p)`. */
  predicate StartsWith(s: string, p: string) {
    |p| <= |s| && s[..|p|] == p
  }

  /** `parts.join(sep)`. */
  function Join(parts: seq<string>, sep: string): string {
    if parts == [] then ""
    else if |parts| == 1 then parts[0]
    else parts[0] + sep + Join(parts[1..], sep)
  }

  /** `s.split(sep)` for a non-empty separator string: the pieces between
      successive leftmost occurrences of `sep`. */
  function SplitOn(s: string, sep: string): (parts: seq<string>)
    requires sep != ""
    ensures |parts| >= 1
    decreases |s|
  {
    var i := IndexOf(s, sep);
    if i == -1 then [s] else [s[..i]] + SplitOn(s[i + |sep|..], sep)
  }

  /** Joining the pieces of a split with its separator gives back the string. */
  lemma {:induction false} JoinSplitOn(s: string, sep: string)
    requires sep != ""
    ensures Join(SplitOn(s, sep), sep) == s
    decreases |s|
  {
    var i := IndexOf(s, sep);
    if i != -1 {
      var rest := s[i + |sep|..];
      JoinSplitOn(rest, sep);
      SplitOnFound(s, sep);
      JoinCons(s[..i], SplitOn(rest, sep), sep);
    }
  }

  /** Where `sep` is found, the split is the text before it followed by the
      split of the text after it. */
  lemma SplitOnFound(s: string, sep: string)
    requires sep != "" && IndexOf(s, sep) != -1
    ensures var i := IndexOf(s, sep);
      && SplitOn(s, sep) == [s[..i]] + SplitOn(s[i + |sep|..], sep)
      && s == s[..i] + sep + s[i + |sep|..]
  {
  }

  lemma JoinCons(head: string, parts: seq<string>, sep: string)
    requires parts != []
    ensures Join([head] + parts, sep) == head + sep + Join(parts, sep)
  {
    assert ([head] + parts)[1..] == parts;
  }

  /** No piece of a split contains the separator. */
  lemma {:induction false} SplitOnPiecesFree(s: string, sep: string)
    requires sep != ""
    ensures forall j :: 0 <= j < |SplitOn(s, sep)| ==> !Contains(SplitOn(s, sep)[j], sep)
    decreases |s|
  {
    var i := IndexOf(s, sep);
    if i != -1 {
      SplitOnPiecesFree(s[i + |sep|..], sep);
      var head := s[..i];
      if Contains(head, sep) {
        var k := IndexOf(head, sep);
        assert OccursAt(head, sep, k) && k < i;
        assert head[k..k + |sep|] == s[k..k + |sep|];
        assert OccursAt(s, sep, k);
        IndexOfIsFirst(s, sep, k);
        assert false;
      }
      SplitOnFound(s, sep);
    }
  }

  /** The last piece of `s.split(c)` (what `.pop()` returns): the text after
      the last `c`, or all of `s` when it has no `c`. */
  function LastSegment(s: string, c: char): (r: string)
    ensures |r| <= |s| && c !in r
  {
    if s == [] then []
    else if s[|s| - 1] == c then []
    else LastSegment(s[..|s| - 1], c) + [s[|s| - 1]]
  }

  /** The last segment is what follows the last `c`: a suffix of `s`,
      preceded by `c` unless it is the whole string. */
  lemma {:induction false} LastSegmentFollowsLastSeparator(s: string, c: char)
    ensures var r := LastSegment(s, c); r == s[|s| - |r|..] && (|r| < |s| ==> s[|s| - |r| - 1] == c)
    decreases |s|
  {
    if s != [] && s[|s| - 1] != c {
      var init := s[..|s| - 1];
      LastSegmentFollowsLastSeparator(init, c);
      var r := LastSegment(init, c);
      assert init[|init| - |r|..] + [s[|s| - 1]] == s[|s| - |r| - 1..];
    }
  }

  /** The last element of a non-empty sequence (what `.pop()` returns). */
  function Last<T>(xs: seq<T>): T
    requires xs != []
  {
    xs[|xs| - 1]
  }

  lemma LastOfCons<T>(head: T, tail: seq<T>)
    requires tail != []
    ensures Last([head] + tail) == Last(tail)
  {
  }

  /** `LastSegment` is indeed the last piece `split` produces. */
  lemma {:induction false} LastSegmentIsLastPiece(s: string, c: char)
    ensures Last(SplitOn(s, [c])) == LastSegment(s, c)
    decreases |s|
  {
    var i := IndexOf(s, [c]);
    if i == -1 {
      AbsentWhenNotFound(s, c);
      LastSegmentWhole(s, c);
    } else {
      assert s[i..i + 1][0] == s[i];
      LastSegmentIsLastPiece(s[i + 1..], c);
      LastPieceAfterFirst(s, c, i);
    }
  }

  /** After the first `c`, the last piece and the last segment are those of
      the text that follows it. */
  lemma LastPieceAfterFirst(s: string, c: char, i: int)
    requires i == IndexOf(s, [c]) && i != -1 && s[i] == c
    requires Last(SplitOn(s[i + 1..], [c])) == LastSegment(s[i + 1..], c)
    ensures Last(SplitOn(s, [c])) == LastSegment(s, c)
  {
    LastSegmentOfSuffix(s, i, c);
    SplitOnFound(s, [c]);
    assert s[i + |[c]|..] == s[i + 1..];
    LastOfCons(s[..i], SplitOn(s[i + 1..], [c]));
  }

  lemma AbsentWhenNotFound(s: string, c: char)
    requires IndexOf(s, [c]) == -1
    ensures c !in s
  {
    if c in s {
      var k :| 0 <= k < |s| && s[k] == c;
      assert OccursAt(s, [c], k);
      IndexOfIsFirst(s, [c], k);
    }
  }

  lemma {:induction false} LastSegmentWhole(s: string, c: char)
    requires c !in s
    ensures LastSegment(s, c) == s
  {
    if s != [] {
      LastSegmentWhole(s[..|s| - 1], c);
    }
  }

  /** The last segment after a `c` at index `i` is the last segment of what follows it. */
  lemma {:induction false} LastSegmentOfSuffix(s: string, i: int, c: char)
    requires 0 <= i < |s| && s[i] == c
    ensures LastSegment(s, c) == LastSegment(s[i + 1..], c)
    decreases |s|
  {
    var after := s[i + 1..];
    if s[|s| - 1] == c {
      assert after == [] || after[|after| - 1] == c;
    } else {
      var init := s[..|s| - 1];
      LastSegmentOfSuffix(init, i, c);
      assert after != [] && after[|after| - 1] == s[|s| - 1];
      assert init[i + 1..] == after[..|after| - 1];
    }
  }

  /** The index of the first space in `s`, or -1. */
  function FirstSpace(s: string): (r: int)
    ensures -1 <= r < |s|
    ensures r >= 0 ==> IsSpace(s[r])
  {
    if s == [] then -1
    else if IsSpace(s[0]) then 0
    else var r := FirstSpace(s[1..]); if r == -1 then -1 else r + 1
  }

  /** No space comes before the first one. */
  lemma {:induction false} FirstSpaceIsFirst(s: string)
    ensures var r := FirstSpace(s); NoSpace(s[..if r == -1 then |s| else r])
    decreases |s|
  {
    if s != [] && !IsSpace(s[0]) {
      FirstSpaceIsFirst(s[1..]);
      var r := FirstSpace(s[1..]);
      var n := if r == -1 then |s| - 1 else r;
      assert s[..n + 1] == [s[0]] + s[1..][..n];
    }
  }

  /** `s.split(/\s+/)`: the pieces between maximal runs of spaces. */
  function SplitSpaces(s: string): (parts: seq<string>)
    ensures |parts| >= 1
    decreases |s|
  {
    var i := FirstSpace(s);
    if i == -1 then [s]
    else [s[..i]] + SplitSpaces(TrimStart(s[i + 1..]))
  }

  /** `s` with every space removed. */
  function RemoveSpaces(s: string): string {
    if s == [] then []
    else (if IsSpace(s[0]) then [] else [s[0]]) + RemoveSpaces(s[1..])
  }

  /** The pieces joined with nothing between them. */
  function Concat(parts: seq<string>): string {
    if parts == [] then "" else parts[0] + Concat(parts[1..])
  }

  lemma {:induction false} RemoveSpacesAppend(a: string, b: string)
    ensures RemoveSpaces(a + b) == RemoveSpaces(a) + RemoveSpaces(b)
    decreases |a|
  {
    if a == [] {
      assert a + b == b;
    } else {
      var ab := a + b;
      assert ab[0] == a[0] && ab[1..] == a[1..] + b;
      RemoveSpacesAppend(a[1..], b);
      var h := if IsSpace(a[0]) then [] else [a[0]];
      assert RemoveSpaces(ab) == h + RemoveSpaces(a[1..] + b);
      assert RemoveSpaces(a) == h + RemoveSpaces(a[1..]);
    }
  }

  lemma {:induction false} RemoveSpacesOfSpaces(s: string)
    requires forall i :: 0 <= i < |s| ==> IsSpace(s[i])
    ensures RemoveSpaces(s) == []
    decreases |s|
  {
    if s != [] {
      RemoveSpacesOfSpaces(s[1..]);
    }
  }

  lemma {:induction false} RemoveSpacesOfNoSpace(s: string)
    requires NoSpace(s)
    ensures RemoveSpaces(s) == s
    decreases |s|
  {
    if s != [] {
      RemoveSpacesOfNoSpace(s[1..]);
    }
  }

  /** No piece of `s.split(/\s+/)` holds a space. */
  lemma {:induction false} SplitSpacesNoSpace(s: string)
    ensures forall p :: p in SplitSpaces(s) ==> NoSpace(p)
    decreases |s|
  {
    var i := FirstSpace(s);
    FirstSpaceIsFirst(s);
    if i == -1 {
      assert s[..|s|] == s;
      assert SplitSpaces(s) == [s];
    } else {
      var t := TrimStart(s[i + 1..]);
      SplitSpacesNoSpace(t);
      SplitSpacesFound(s, i, t);
      assert NoSpace(s[..i]);
    }
  }

  /** Where the first space is found, the split is the text before it
      followed by the split of what follows the run of spaces. */
  lemma SplitSpacesFound(s: string, i: int, t: string)
    requires i == FirstSpace(s) && i != -1 && t == TrimStart(s[i + 1..])
    ensures SplitSpaces(s) == [s[..i]] + SplitSpaces(t)
  {
  }

  /** Splitting a string with no leading or trailing space (`trim` was
      applied first) that is not empty gives no empty piece. */
  lemma {:induction false} SplitSpacesNonEmpty(s: string)
    requires s != [] && !IsSpace(s[0]) && !IsSpace(s[|s| - 1])
    ensures forall p :: p in SplitSpaces(s) ==> p != []
    decreases |s|
  {
    var i := FirstSpace(s);
    if i == -1 {
      assert SplitSpaces(s) == [s];
    } else {
      var t := TrimStart(s[i + 1..]);
      TrimmedRestNonEmpty(s, i);
      SplitSpacesNonEmpty(t);
      SplitSpacesFound(s, i, t);
      assert s[..i] != [];
    }
  }

  /** What follows the first space, without its leading spaces, still ends
      with the string's last character. */
  lemma TrimmedRestNonEmpty(s: string, i: int)
    requires 0 <= i < |s| && IsSpace(s[i]) && !IsSpace(s[|s| - 1])
    ensures var t := TrimStart(s[i + 1..]); t != [] && !IsSpace(t[0]) && t[|t| - 1] == s[|s| - 1]
  {
    var rest := s[i + 1..];
    assert i < |s| - 1;
    assert rest[|rest| - 1] == s[|s| - 1];
    var t := TrimStart(rest);
    TrimStartIsSuffix(rest);
    assert !IsSpace(rest[|rest| - 1]);
  }

  /** The pieces of a split, put back together, are the string without its
      spaces: the split loses nothing but whitespace. */
  lemma {:induction false} SplitSpacesConcat(s: string)
    ensures Concat(SplitSpaces(s)) == RemoveSpaces(s)
    decreases |s|
  {
    var i := FirstSpace(s);
    if i == -1 {
      FirstSpaceIsFirst(s);
      assert s[..|s|] == s;
      RemoveSpacesOfNoSpace(s);
      assert Concat([s]) == s + Concat([]);
    } else {
      var t := TrimStart(s[i + 1..]);
      SplitSpacesConcat(t);
      RemoveSpacesAtFirstSpace(s, i);
      SplitSpacesFound(s, i, t);
    }
  }

  /** Removing the spaces of `s` keeps the text before its first space and
      drops the run of spaces that follows it. */
  lemma RemoveSpacesAtFirstSpace(s: string, i: int)
    requires i == FirstSpace(s) && i != -1
    ensures RemoveSpaces(s) == s[..i] + RemoveSpaces(TrimStart(s[i + 1..]))
  {
    var rest := s[i + 1..];
    var t := TrimStart(rest);
    var n := |rest| - |t|;
    TrimStartIsSuffix(rest);
    FirstSpaceIsFirst(s);
    RemoveSpacesOfNoSpace(s[..i]);
    RemoveSpacesOfSpaces([s[i]] + rest[..n]);
    SplitAround(s, i, n);
    RemoveSpacesAround(s[..i], [s[i]] + rest[..n], t);
  }

  lemma RemoveSpacesAround(head: string, gap: string, t: string)
    requires RemoveSpaces(head) == head && RemoveSpaces(gap) == []
    ensures RemoveSpaces(head + (gap + t)) == head + RemoveSpaces(t)
  {
    RemoveSpacesAppend(gap, t);
    RemoveSpacesAppend(head, gap + t);
  }

  /** `s` cut at `i` and again `n` characters after it. */
  lemma SplitAround(s: string, i: int, n: int)
    requires 0 <= i < |s| && 0 <= n <= |s| - i - 1
    ensures s == s[..i] + (([s[i]] + s[i + 1..][..n]) + s[i + 1..][n..])
  {
  }

  /** `s.replace(/\n/g, ' ')`: every line feed becomes a space and every
      other character stays where it is. */
  function ReplaceNewlines(s: string): (r: string)
    ensures |r| == |s|
    ensures forall i :: 0 <= i < |s| ==> r[i] != '\n'
    ensures forall i :: 0 <= i < |s| && s[i] != '\n' ==> r[i] == s[i]
    ensures forall i :: 0 <= i < |s| && s[i] == '\n' ==> r[i] == ' '
  {
    seq(|s|, i requires 0 <= i < |s| => if s[i] == '\n' then ' ' else s[i])
  }

  /** Decimal text of a natural number, as a template literal prints it. */
  function NatToString(n: nat): (r: string)
    ensures |r| >= 1
    ensures forall i :: 0 <= i < |r| ==> '0' <= r[i] <= '9'
  {
    var d := ['0' + ((n % 10) as char)];
    if n < 10 then d else NatToString(n / 10) + d
  }

  /** The ASCII case folding a JavaScript `/i` pattern of ASCII letters
      applies: a non-ASCII character never matches an ASCII letter. */
  function LowerAscii(c: char): char {
    if 'A' <= c <= 'Z' then (c as int + 32) as char else c
  }

  function LowerAll(s: string): (r: string)
    ensures |r| == |s|
    ensures forall i :: 0 <= i < |s| ==> r[i] == LowerAscii(s[i])
  {
    if s == [] then [] else [LowerAscii(s[0])] + LowerAll(s[1..])
  }

  /** `/p/i.test(s)` for a pattern `p` written in lower case. */
  predicate ContainsIgnoreCase(s: string, p: string) {
    Contains(LowerAll(s), p)
  }
}
