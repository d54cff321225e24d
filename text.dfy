/** The JavaScript string operations the source relies on: toLowerCase, trim,
    includes, split and join, over strings of characters. */
module Text {
  import opened Seqs

  /** The characters String.prototype.trim removes: white space and line
      terminators as ECMAScript defines them. */
  predicate IsSpace(c: char) {
    || c == ' ' || c == '\t' || c == '\n' || c == '\r' || c == '\U{000B}' || c == '\U{000C}'
    || c == '\U{00A0}' || c == '\U{1680}' || ('\U{2000}' <= c <= '\U{200A}')
    || c == '\U{2028}' || c == '\U{2029}' || c == '\U{202F}' || c == '\U{205F}'
    || c == '\U{3000}' || c == '\U{FEFF}'
  }

  /** toLowerCase on one character, for the ASCII letters. */
  function LowerChar(c: char): (r: char)
    ensures 'A' <= c <= 'Z' ==> 'a' <= r <= 'z'
    ensures !('A' <= c <= 'Z') ==> r == c
  {
    if 'A' <= c <= 'Z' then (c as int + 32) as char else c
  }

  function Lower(s: string): (r: string)
    ensures |r| == |s|
    ensures forall i :: 0 <= i < |s| ==> r[i] == LowerChar(s[i])
  {
    if s == [] then [] else [LowerChar(s[0])] + Lower(s[1..])
  }

  /** A string with no white space at either end. */
  predicate IsTrimmed(s: string) {
    s == [] || (!IsSpace(s[0]) && !IsSpace(s[|s| - 1]))
  }

  /** Drops the leading white space: the result is a suffix of `s` and
      everything cut off is white space. */
  function TrimStart(s: string): (r: string)
    ensures |r| <= |s| && r == s[|s| - |r|..]
    ensures r == [] || !IsSpace(r[0])
    ensures forall i :: 0 <= i < |s| - |r| ==> IsSpace(s[i])
  {
    if s != [] && IsSpace(s[0]) then TrimStart(s[1..]) else s
  }

  /** Drops the trailing white space: the result is a prefix of `s` and
      everything cut off is white space. */
  function TrimEnd(s: string): (r: string)
    ensures |r| <= |s| && r == s[..|r|]
    ensures r == [] || !IsSpace(r[|r| - 1])
    ensures forall i :: |r| <= i < |s| ==> IsSpace(s[i])
  {
    if s != [] && IsSpace(s[|s| - 1]) then TrimEnd(s[..|s| - 1]) else s
  }

  /** `r` sits at offset `a` of `s` and only white space lies outside it. */
  predicate IsCoreAt(s: string, r: string, a: nat) {
    && a + |r| <= |s| && r == s[a..a + |r|]
    && (forall i :: 0 <= i < a ==> IsSpace(s[i]))
    && (forall i :: a + |r| <= i < |s| ==> IsSpace(s[i]))
  }

  /** String.prototype.trim: the result is a trimmed slice of `s` with only
      white space outside it. */
  function Trim(s: string): (r: string)
    ensures IsTrimmed(r)
    ensures exists a: nat :: IsCoreAt(s, r, a)
  {
    var t := TrimStart(s);
    var r := TrimEnd(t);
    CoreOfTrims(s, t, r);
    assert IsCoreAt(s, r, |s| - |t|);
    r
  }

  /** What TrimStart and then TrimEnd leave is a core of the string. */
  lemma CoreOfTrims(s: string, t: string, r: string)
    requires |t| <= |s| && t == s[|s| - |t|..]
    requires forall i :: 0 <= i < |s| - |t| ==> IsSpace(s[i])
    requires |r| <= |t| && r == t[..|r|]
    requires forall i :: |r| <= i < |t| ==> IsSpace(t[i])
    ensures IsCoreAt(s, r, |s| - |t|)
  {
    var a := |s| - |t|;
    assert r == s[a..a + |r|];
    forall i | a + |r| <= i < |s| ensures IsSpace(s[i]) {
      assert s[i] == t[i - a];
    }
  }

  /** Trimming a trimmed string changes nothing. */
  lemma TrimTrimmed(s: string)
    requires IsTrimmed(s)
    ensures Trim(s) == s
  {
    assert TrimStart(s) == s;
    assert TrimEnd(s) == s;
  }

  /** A string without white space is trimmed. */
  lemma NoSpaceIsTrimmed(s: string)
    requires forall i :: 0 <= i < |s| ==> !IsSpace(s[i])
    ensures IsTrimmed(s)
  {
  }

  /** String.prototype.includes: `needle` occurs in `hay` as a contiguous
      piece. */
  predicate Includes(hay: string, needle: string)
    decreases |hay|
  {
    needle <= hay || (hay != [] && Includes(hay[1..], needle))
  }

  /** The empty string occurs in every string. */
  lemma IncludesEmpty(hay: string)
    ensures Includes(hay, [])
  {
  }

  /** Only the empty string occurs in the empty string. */
  lemma IncludesInEmpty(needle: string)
    ensures Includes([], needle) <==> needle == []
  {
  }

  /** String.prototype.split with a one-character separator: the pieces between
      the separators, an empty piece where two separators meet or at an end. */
  function Split(s: string, sep: char): (parts: seq<string>)
    ensures |parts| >= 1
    ensures forall p :: p in parts ==> sep !in p
  {
    if s == [] then [[]]
    else
      var rest := Split(s[1..], sep);
      if s[0] == sep then [[]] + rest
      else [[s[0]] + rest[0]] + rest[1..]
  }

  /** Array.prototype.join with a one-character separator. */
  function Join(parts: seq<string>, sep: char): string {
    if parts == [] then []
    else if |parts| == 1 then parts[0]
    else parts[0] + [sep] + Join(parts[1..], sep)
  }

  /** Joining the pieces of a split gives the string back. */
  lemma {:induction false} JoinSplit(s: string, sep: char)
    ensures Join(Split(s, sep), sep) == s
  {
    if s != [] {
      var rest := Split(s[1..], sep);
      JoinSplit(s[1..], sep);
      if s[0] == sep {
        assert Split(s, sep)[1..] == rest;
      } else {
        var parts := Split(s, sep);
        assert parts[1..] == rest[1..];
        if |rest| == 1 {
          assert Join(parts, sep) == [s[0]] + rest[0];
        } else {
          assert Join(rest, sep) == rest[0] + [sep] + Join(rest[1..], sep);
          assert Join(parts, sep) == [s[0]] + rest[0] + [sep] + Join(rest[1..], sep);
        }
        assert s == [s[0]] + s[1..];
      }
    }
  }

  /** A piece without the separator splits to itself. */
  lemma {:induction false} SplitPiece(p: string, sep: char)
    requires sep !in p
    ensures Split(p, sep) == [p]
  {
    if p != [] {
      SplitPiece(p[1..], sep);
      assert [p[0]] + p[1..] == p;
    }
  }

  /** A piece followed by the separator is split off whole. */
  lemma {:induction false} SplitPieceThenSep(p: string, sep: char, tail: string)
    requires sep !in p
    ensures Split(p + [sep] + tail, sep) == [p] + Split(tail, sep)
  {
    if p == [] {
      assert p + [sep] + tail == [sep] + tail;
      assert ([sep] + tail)[1..] == tail;
    } else {
      SplitPieceThenSep(p[1..], sep, tail);
      assert (p + [sep] + tail)[1..] == p[1..] + [sep] + tail;
      assert [p[0]] + p[1..] == p;
    }
  }

  /** Splitting a join gives the pieces back, provided there is at least one
      piece and no piece holds the separator. */
  lemma {:induction false} SplitJoin(parts: seq<string>, sep: char)
    requires |parts| >= 1
    requires forall p :: p in parts ==> sep !in p
    ensures Split(Join(parts, sep), sep) == parts
  {
    if |parts| == 1 {
      SplitPiece(parts[0], sep);
    } else {
      SplitJoin(parts[1..], sep);
      SplitPieceThenSep(parts[0], sep, Join(parts[1..], sep));
      assert [parts[0]] + parts[1..] == parts;
    }
  }

  /** A trimmed string is a slice of the original, so it holds no character
      the original lacks. */
  lemma TrimKeepsOut(s: string, c: char)
    requires c !in s
    ensures c !in Trim(s)
  {
    var r := Trim(s);
    var a: nat :| IsCoreAt(s, r, a);
    forall i | 0 <= i < |r| ensures r[i] != c {
      assert r[i] == s[a + i];
    }
  }

  lemma TrimmedPiecesKeepOut(pieces: seq<string>, sep: char)
    requires forall p :: p in pieces ==> sep !in p
    ensures forall t :: t in Map(pieces, Trim) ==> sep !in t && IsTrimmed(t)
  {
    var trimmed := Map(pieces, Trim);
    forall k | 0 <= k < |pieces|
      ensures sep !in trimmed[k]
    {
      TrimKeepsOut(pieces[k], sep);
    }
  }

  /** The pieces SplitTrimmed keeps: the non-empty ones. */
  predicate NonEmptyPiece(t: string) {
    t != []
  }

  /** `s.split(sep).map(t => t.trim()).filter(Boolean)`: the non-empty
      trimmed pieces between the separators. */
  function SplitTrimmed(s: string, sep: char): (r: seq<string>)
    ensures forall t :: t in r ==> t != [] && IsTrimmed(t) && sep !in t
  {
    var trimmed := Map(Split(s, sep), Trim);
    TrimmedPiecesKeepOut(Split(s, sep), sep);
    Filter(trimmed, NonEmptyPiece)
  }

  /** Splitting a join of separator-free pieces, trimming and dropping the
      empty ones, is trimming the pieces and dropping the empty ones. With
      JoinSplit this describes SplitTrimmed on every string. */
  lemma SplitTrimmedJoin(pieces: seq<string>, sep: char)
    requires forall p :: p in pieces ==> sep !in p
    ensures SplitTrimmed(Join(pieces, sep), sep) == Filter(Map(pieces, Trim), NonEmptyPiece)
  {
    if pieces == [] {
      SplitTrimmedEmpty(sep);
    } else {
      SplitJoin(pieces, sep);
    }
  }

  /** The empty string has no non-empty piece. */
  lemma SplitTrimmedEmpty(sep: char)
    ensures SplitTrimmed([], sep) == []
  {
    assert Trim([]) == [];
    assert Map(Split([], sep), Trim) == [[]];
  }
}
