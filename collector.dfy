/**
 * `get_geometry_sides` (main.js): read one number from each input element,
 * giving up on the whole batch when any trimmed text is empty or does not
 * parse, then sort the numbers ascending.
 *
 * JavaScript's `Number(...)` is the parameter `parse`, with `None` standing
 * for NaN; `String.prototype.trim` is given a concrete definition below.
 */
module Collector {
  import opened Wrappers
  import opened Geometry

  /** An `HTMLInputElement`, reduced to the text it holds. */
  class InputElement {
    var value: string

    constructor (text: string)
      ensures value == text
    {
      value := text;
    }
  }

  /** The texts the input elements hold, in order. */
  function Texts(sides: seq<InputElement>): (texts: seq<string>)
    reads sides
    ensures |texts| == |sides|
  {
    if sides == [] then [] else [sides[0].value] + Texts(sides[1..])
  }

  /** The text read from each element is the element's value. */
  lemma {:induction false} TextsAt(sides: seq<InputElement>, i: nat)
    requires i < |sides|
    ensures Texts(sides)[i] == sides[i].value
  {
    if i > 0 {
      TextsAt(sides[1..], i - 1);
    }
  }

  // ---------------------------------------------------------------------
  // Trimming

  /** The characters `trim` strips: ECMAScript white space and line terminators. */
  predicate IsWhitespace(ch: char)
  {
    ch == ' ' || ch == '\t' || ch == '\n' || ch == '\r' || ch == '\U{000B}' || ch == '\U{000C}'
    || ch == '\U{00A0}' || ch == '\U{FEFF}' || ch == '\U{2028}' || ch == '\U{2029}'
  }

  /** Drops the leading white space. */
  function TrimStart(s: string): (r: string)
  {
    if s != [] && IsWhitespace(s[0]) then TrimStart(s[1..]) else s
  }

  /** Drops the trailing white space. */
  function TrimEnd(s: string): (r: string)
  {
    if s != [] && IsWhitespace(s[|s| - 1]) then TrimEnd(s[..|s| - 1]) else s
  }

  /** `String.prototype.trim`: white space removed from both ends. */
  function Trim(s: string): (r: string)
  {
    TrimEnd(TrimStart(s))
  }

  /** `TrimStart` keeps a suffix that does not start with white space, and cuts off only white space. */
  lemma {:induction false} TrimStartCutsLeadingBlanks(s: string)
    ensures |TrimStart(s)| <= |s| && TrimStart(s) == s[|s| - |TrimStart(s)|..]
    ensures TrimStart(s) == [] || !IsWhitespace(TrimStart(s)[0])
    ensures forall i :: 0 <= i < |s| - |TrimStart(s)| ==> IsWhitespace(s[i])
  {
    if s != [] && IsWhitespace(s[0]) {
      TrimStartCutsLeadingBlanks(s[1..]);
      var r := TrimStart(s[1..]);
      assert s[1..][|s| - 1 - |r|..] == s[|s| - |r|..];
      forall i | 0 <= i < |s| - |r| ensures IsWhitespace(s[i]) {
        if i > 0 {
          assert s[i] == s[1..][i - 1];
        }
      }
    }
  }

  /** `TrimEnd` keeps a prefix that does not end with white space, and cuts off only white space. */
  lemma {:induction false} TrimEndCutsTrailingBlanks(s: string)
    ensures |TrimEnd(s)| <= |s| && TrimEnd(s) == s[..|TrimEnd(s)|]
    ensures TrimEnd(s) == [] || !IsWhitespace(TrimEnd(s)[|TrimEnd(s)| - 1])
    ensures forall i :: |TrimEnd(s)| <= i < |s| ==> IsWhitespace(s[i])
  {
    if s != [] && IsWhitespace(s[|s| - 1]) {
      var p := s[..|s| - 1];
      TrimEndCutsTrailingBlanks(p);
      var r := TrimEnd(p);
      assert p[..|r|] == s[..|r|];
      forall i | |r| <= i < |s| ensures IsWhitespace(s[i]) {
        if i < |s| - 1 {
          assert s[i] == p[i];
        }
      }
    }
  }

  /**
   * The trimmed text is the slice of the input between its first and last
   * non-white-space characters: everything cut off is white space and the
   * result neither starts nor ends with white space.
   */
  lemma {:induction false} TrimIsInnerSlice(s: string)
    ensures exists lo, hi :: 0 <= lo <= hi <= |s| && Trim(s) == s[lo..hi]
              && (forall i :: 0 <= i < lo ==> IsWhitespace(s[i]))
              && (forall i :: hi <= i < |s| ==> IsWhitespace(s[i]))
    ensures Trim(s) == [] || (!IsWhitespace(Trim(s)[0]) && !IsWhitespace(Trim(s)[|Trim(s)| - 1]))
  {
    var t := TrimStart(s);
    TrimStartCutsLeadingBlanks(s);
    TrimEndCutsTrailingBlanks(t);
    var r := TrimEnd(t);
    var lo := |s| - |t|;
    var hi := lo + |r|;
    assert s[lo..hi] == t[..|r|] == r;
    forall i | hi <= i < |s| ensures IsWhitespace(s[i]) {
      assert s[i] == t[i - lo];
    }
    if r != [] {
      assert r[0] == t[0];
    }
  }

  /** The trimmed text is empty exactly when the input is white space only. */
  lemma {:induction false} TrimEmptyIffBlank(s: string)
    ensures Trim(s) == [] <==> forall i :: 0 <= i < |s| ==> IsWhitespace(s[i])
  {
    TrimStartCutsLeadingBlanks(s);
    TrimEndCutsTrailingBlanks(TrimStart(s));
  }

  /** Trimming twice is trimming once. */
  lemma {:induction false} TrimIdempotent(s: string)
    ensures Trim(Trim(s)) == Trim(s)
  {
    var r := Trim(s);
    TrimIsInnerSlice(s);
    if r != [] {
      assert TrimStart(r) == r;
      assert TrimEnd(r) == r;
    }
  }

  // ---------------------------------------------------------------------
  // Sorting: `values.sort((a, b) => a - b)`

  predicate Sorted(s: seq<real>)
  {
    forall i, j :: 0 <= i < j < |s| ==> s[i] <= s[j]
  }

  /** A value no larger than the head of a sorted sequence can be put in front of it. */
  lemma SortedCons(h: real, t: seq<real>)
    requires Sorted(t) && (t == [] || h <= t[0])
    ensures Sorted([h] + t)
  {
    var r := [h] + t;
    forall i, j | 0 <= i < j < |r| ensures r[i] <= r[j] {
      if i > 0 {
        assert r[i] == t[i - 1] && r[j] == t[j - 1];
      } else {
        assert r[j] == t[j - 1];
      }
    }
  }

  /** Puts `x` into a sorted sequence in front of the first element not below it. */
  function Insert(x: real, s: seq<real>): (r: seq<real>)
    requires Sorted(s)
    ensures |r| == |s| + 1 && Sorted(r)
    ensures r[0] == if s == [] || x <= s[0] then x else s[0]
    ensures multiset(r) == multiset(s) + multiset{x}
  {
    if s == [] || x <= s[0] then
      SortedCons(x, s);
      [x] + s
    else
      var rest := Insert(x, s[1..]);
      SortedCons(s[0], rest);
      assert s == [s[0]] + s[1..];
      [s[0]] + rest
  }

  /** The ascending order of `s`: a sorted permutation of it. */
  function SortAscending(s: seq<real>): (r: seq<real>)
    ensures |r| == |s| && Sorted(r)
    ensures multiset(r) == multiset(s)
  {
    if s == [] then []
    else
      assert s == [s[0]] + s[1..];
      Insert(s[0], SortAscending(s[1..]))
  }

  /** The head of a non-empty sorted sequence is its least element. */
  lemma HeadIsLeast(a: seq<real>, x: real)
    requires Sorted(a) && x in multiset(a)
    ensures a[0] <= x
  {
    assert x in a;
    var j :| 0 <= j < |a| && a[j] == x;
    assert a[0] <= a[j];
  }

  /**
   * A sorted permutation is unique. Whatever algorithm the JavaScript engine
   * uses, `sort` with the comparator `a - b` yields this one sequence.
   */
  lemma {:induction false} SortedPermutationUnique(a: seq<real>, b: seq<real>)
    requires Sorted(a) && Sorted(b) && multiset(a) == multiset(b)
    ensures a == b
    decreases |a|
  {
    assert |a| == |multiset(a)| == |multiset(b)| == |b|;
    if a != [] {
      assert a[0] in multiset(a) && b[0] in multiset(b);
      HeadIsLeast(a, b[0]);
      HeadIsLeast(b, a[0]);
      SameHeadSameTail(a, b);
      SortedPermutationUnique(a[1..], b[1..]);
      assert a == [a[0]] + a[1..] && b == [b[0]] + b[1..];
    }
  }

  /** Two sorted permutations with the same head have sorted tails that are permutations of each other. */
  lemma SameHeadSameTail(a: seq<real>, b: seq<real>)
    requires Sorted(a) && Sorted(b) && multiset(a) == multiset(b)
    requires a != [] && b != [] && a[0] == b[0]
    ensures Sorted(a[1..]) && Sorted(b[1..]) && multiset(a[1..]) == multiset(b[1..])
  {
    assert a == [a[0]] + a[1..] && b == [b[0]] + b[1..];
    assert multiset(a[1..]) == multiset(a) - multiset{a[0]};
    assert multiset(b[1..]) == multiset(b) - multiset{b[0]};
  }

  /** Sorting a sorted sequence leaves it unchanged, so sorting is idempotent. */
  lemma {:induction false} SortIdempotent(s: seq<real>)
    ensures Sorted(s) ==> SortAscending(s) == s
    ensures SortAscending(SortAscending(s)) == SortAscending(s)
  {
    if Sorted(s) {
      SortedPermutationUnique(SortAscending(s), s);
    }
    SortedPermutationUnique(SortAscending(SortAscending(s)), SortAscending(s));
  }

  /** Inserting into a one-element sequence. */
  lemma InsertIntoOne(x: real, y: real)
    ensures Insert(x, [y]) == if x <= y then [x, y] else [y, x]
  {
    if y < x {
      assert [y][1..] == [];
    }
  }

  /** Inserting into a sorted two-element sequence. */
  lemma InsertIntoTwo(x: real, y: real, z: real)
    requires y <= z
    ensures Insert(x, [y, z]) == if x <= y then [x, y, z] else if x <= z then [y, x, z] else [y, z, x]
  {
    if y < x {
      assert [y, z][1..] == [z];
      InsertIntoOne(x, z);
    }
  }

  /** Sorting three values reorders them. */
  lemma {:induction false} SortThreeReorders(s: seq<real>)
    requires |s| == 3
    ensures Reorders3(SortAscending(s), s)
  {
    var a, b, c := s[0], s[1], s[2];
    var bc := if b <= c then [b, c] else [c, b];
    assert SortAscending([b, c]) == bc by {
      assert [b, c][1..] == [c] && [c][1..] == [];
      assert SortAscending([c]) == [c];
      InsertIntoOne(b, c);
    }
    assert s == [a] + [b, c];
    var r := SortAscending(s);
    assert r == Insert(a, bc);
    InsertIntoTwo(a, bc[0], bc[1]);
    if b <= c {
      if a <= b { assert r == [a, b, c]; }
      else if a <= c { assert r == [b, a, c]; }
      else { assert r == [b, c, a]; }
    } else {
      if a <= c { assert r == [a, c, b]; }
      else if a <= b { assert r == [c, a, b]; }
      else { assert r == [c, b, a]; }
    }
  }

  // ---------------------------------------------------------------------
  // Collecting

  /** One input's number: its trimmed text must be non-empty and parse to a number. */
  function ReadSide(text: string, parse: string -> Option<real>): (v: Option<real>)
  {
    var t := Trim(text);
    if |t| == 0 then None else parse(t)
  }

  /** Every input yields a number. */
  predicate AllReadable(texts: seq<string>, parse: string -> Option<real>)
  {
    forall i :: 0 <= i < |texts| ==> ReadSide(texts[i], parse).Some?
  }

  /** The numbers read, in input order. */
  function Parsed(texts: seq<string>, parse: string -> Option<real>): (vs: seq<real>)
    requires AllReadable(texts, parse)
    ensures |vs| == |texts|
  {
    if texts == [] then [] else [ReadSide(texts[0], parse).value] + Parsed(texts[1..], parse)
  }

  /** Each number read is what its own input yields. */
  lemma {:induction false} ParsedAt(texts: seq<string>, parse: string -> Option<real>, i: nat)
    requires AllReadable(texts, parse) && i < |texts|
    ensures Some(Parsed(texts, parse)[i]) == ReadSide(texts[i], parse)
  {
    if i > 0 {
      assert AllReadable(texts[1..], parse) by {
        forall k | 0 <= k < |texts| - 1 ensures ReadSide(texts[1..][k], parse).Some? {
          assert texts[1..][k] == texts[k + 1];
        }
      }
      ParsedAt(texts[1..], parse, i - 1);
    }
  }

  /** The numbers read are the only sequence that agrees with every input. */
  lemma {:induction false} ParsedIsUnique(texts: seq<string>, parse: string -> Option<real>, vs: seq<real>)
    requires |vs| == |texts| && forall i :: 0 <= i < |texts| ==> ReadSide(texts[i], parse) == Some(vs[i])
    ensures AllReadable(texts, parse) && Parsed(texts, parse) == vs
  {
    var p := Parsed(texts, parse);
    forall i | 0 <= i < |texts| ensures p[i] == vs[i] {
      ParsedAt(texts, parse, i);
    }
  }

  /** What `get_geometry_sides` returns for these texts: nothing, or the numbers sorted. */
  function Collect(texts: seq<string>, parse: string -> Option<real>): (r: Option<seq<real>>)
    ensures r.Some? ==> |r.value| == |texts| && Sorted(r.value)
  {
    if AllReadable(texts, parse) then Some(SortAscending(Parsed(texts, parse))) else None
  }

  /**
   * The collection fails exactly when some input's trimmed text is empty or
   * does not parse; no partial result is returned.
   */
  lemma CollectFailsIffUnreadable(texts: seq<string>, parse: string -> Option<real>)
    ensures Collect(texts, parse).None? <==>
              exists i :: 0 <= i < |texts| && (|Trim(texts[i])| == 0 || parse(Trim(texts[i])).None?)
  {
  }

  /** One input that yields no number makes the whole collection fail. */
  lemma UnreadableFails(texts: seq<string>, parse: string -> Option<real>, i: nat)
    requires i < |texts| && ReadSide(texts[i], parse).None?
    ensures Collect(texts, parse) == None
  {
  }

  /** On success there is one number per input: the numbers read, rearranged into ascending order. */
  lemma CollectSortsParsed(texts: seq<string>, parse: string -> Option<real>)
    requires AllReadable(texts, parse)
    ensures Collect(texts, parse) == Some(SortAscending(Parsed(texts, parse)))
    ensures multiset(Collect(texts, parse).value) == multiset(Parsed(texts, parse))
    ensures Sorted(Collect(texts, parse).value) && |Collect(texts, parse).value| == |texts|
  {
  }

  /**
   * `get_geometry_sides`: reads the inputs in order, returning nothing at the
   * first one whose trimmed text is empty or is not a number; otherwise one
   * number per input, sorted ascending. It changes no input element.
   */
  method GetGeometrySides(sides: seq<InputElement>, parse: string -> Option<real>) returns (values: Option<seq<real>>)
    ensures values == Collect(Texts(sides), parse)
  {
    ghost var texts := Texts(sides);
    var read: seq<real> := [];
    for i := 0 to |sides|
      invariant |read| == i
      invariant forall k :: 0 <= k < i ==> ReadSide(texts[k], parse) == Some(read[k])
    {
      var side := sides[i];
      TextsAt(sides, i);
      if |Trim(side.value)| == 0 {
        UnreadableFails(texts, parse, i);
        return None;
      }
      var value := parse(Trim(side.value));
      if value.None? {
        UnreadableFails(texts, parse, i);
        return None;
      }
      read := read + [value.value];
    }
    ParsedIsUnique(texts, parse, read);
    values := Some(SortAscending(read));
  }
}
