/**
 * Go's `strings.Split`, which the row decoder uses to cut a list cell into
 * tokens, with `strings.Join` as its inverse.
 */
module Strings {
  import opened Wrappers

  /** `sep` occurs in `s` starting at position `j`. */
  predicate OccursAt(s: string, sep: string, j: nat) {
    j + |sep| <= |s| && s[j..j + |sep|] == sep
  }

  /** `sep` occurs somewhere in `s`. */
  ghost predicate Contains(s: string, sep: string) {
    exists j: nat :: OccursAt(s, sep, j)
  }

  /** `strings.Index` for a non-empty separator: the leftmost occurrence, None when there is none. */
  function Index(s: string, sep: string): (r: Option<nat>)
    requires sep != []
    ensures r.Some? ==> OccursAt(s, sep, r.value)
    ensures r.Some? ==> forall j: nat :: j < r.value ==> !OccursAt(s, sep, j)
    ensures r.None? ==> !Contains(s, sep)
    decreases |s|
  {
    if |s| < |sep| then None
    else if s[..|sep|] == sep then Some(0)
    else
      OccursShift(s, sep);
      match Index(s[1..], sep)
      case None => None
      case Some(i) => Some(i + 1)
  }

  /** An occurrence in `s[1..]` is an occurrence in `s` one position later. */
  lemma OccursShift(s: string, sep: string)
    requires s != []
    ensures forall j: nat :: j >= 1 ==> (OccursAt(s, sep, j) <==> OccursAt(s[1..], sep, j - 1))
  {
    forall j: nat | j >= 1 ensures OccursAt(s, sep, j) <==> OccursAt(s[1..], sep, j - 1) {
      if j + |sep| <= |s| {
        assert s[1..][j - 1..j - 1 + |sep|] == s[j..j + |sep|];
      }
    }
  }

  /**
   * `strings.Split(s, sep)`: the pieces of `s` between the non-overlapping
   * leftmost occurrences of `sep`.  An empty `s` gives one empty piece.  With
   * an empty separator Go cuts after each character, and an empty `s` then
   * gives no pieces.
   */
  function Split(s: string, sep: string): (r: seq<string>)
    ensures sep != [] ==> |r| >= 1
    decreases |s|
  {
    if sep == [] then Explode(s)
    else match Index(s, sep)
      case None => [s]
      case Some(i) => [s[..i]] + Split(s[i + |sep|..], sep)
  }

  /** One piece per character. */
  function Explode(s: string): (r: seq<string>)
    ensures |r| == |s|
  {
    if s == [] then [] else [[s[0]]] + Explode(s[1..])
  }

  /** `strings.Join(parts, sep)`. */
  function Join(parts: seq<string>, sep: string): string {
    if parts == [] then []
    else if |parts| == 1 then parts[0]
    else parts[0] + sep + Join(parts[1..], sep)
  }

  /** Joining the pieces with the separator gives back the text that was split. */
  lemma {:induction false} SplitJoin(s: string, sep: string)
    ensures Join(Split(s, sep), sep) == s
    decreases |s|
  {
    if sep == [] {
      ExplodeJoin(s);
    } else {
      match Index(s, sep)
      case None =>
      case Some(i) =>
        var rest := s[i + |sep|..];
        SplitAt(s, sep, i);
        SplitJoin(rest, sep);
        JoinCons(s[..i], Split(rest, sep), sep);
    }
  }

  /** Where Index finds the separator, the text is the first piece, the separator and the rest, and so is its split. */
  lemma SplitAt(s: string, sep: string, i: nat)
    requires sep != [] && Index(s, sep) == Some(i)
    ensures i + |sep| <= |s| && s == s[..i] + sep + s[i + |sep|..]
    ensures Split(s, sep) == [s[..i]] + Split(s[i + |sep|..], sep)
  {
    var k := i + |sep|;
    assert s == s[..i] + sep + s[k..] by {
      assert s[..k] == s[..i] + s[i..k];
      assert s == s[..k] + s[k..];
    }
  }

  /** Joining a first piece to further pieces puts the separator between it and their join. */
  lemma JoinCons(head: string, parts: seq<string>, sep: string)
    requires parts != []
    ensures Join([head] + parts, sep) == head + sep + Join(parts, sep)
  {
    assert ([head] + parts)[1..] == parts;
  }

  /** Joining the one-character pieces with nothing between them gives the text back. */
  lemma {:induction false} ExplodeJoin(s: string)
    ensures Join(Explode(s), []) == s
  {
    if |s| > 1 {
      ExplodeJoin(s[1..]);
      assert Explode(s)[1..] == Explode(s[1..]);
      assert s == [s[0]] + s[1..];
    } else if |s| == 1 {
      assert Explode(s) == [[s[0]]];
    }
  }

  /** No piece of a split by a non-empty separator contains the separator. */
  lemma {:induction false} SplitPiecesAvoidSeparator(s: string, sep: string)
    requires sep != []
    ensures forall k :: 0 <= k < |Split(s, sep)| ==> !Contains(Split(s, sep)[k], sep)
    decreases |s|
  {
    match Index(s, sep)
    case None =>
    case Some(i) =>
      var rest := s[i + |sep|..];
      SplitPiecesAvoidSeparator(rest, sep);
      var head := s[..i];
      forall j: nat | OccursAt(head, sep, j) ensures false {
        assert head[j..j + |sep|] == s[j..j + |sep|];
        assert OccursAt(s, sep, j);
      }
      assert Split(s, sep) == [head] + Split(rest, sep);
  }

  /** A one-character separator occurs in `s` exactly when its character does. */
  lemma ContainsChar(s: string, c: char)
    ensures Contains(s, [c]) <==> c in s
  {
    if c in s {
      var j :| 0 <= j < |s| && s[j] == c;
      assert s[j..j + 1] == [c];
      assert OccursAt(s, [c], j);
    }
    if Contains(s, [c]) {
      var j: nat :| OccursAt(s, [c], j);
      assert s[j] == s[j..j + 1][0];
    }
  }

  /** Text that does not contain the separator is a single piece. */
  lemma SplitWhole(s: string, sep: string)
    requires sep != [] && !Contains(s, sep)
    ensures Split(s, sep) == [s]
  {
    // an occurrence Index found would contradict the precondition
  }

  /**
   * The first piece ends at the first separator: when no occurrence of `sep`
   * starts inside `a` (not even one running into the separator after it),
   * splitting `a + sep + b` gives `a`, then the pieces of `b`.
   */
  lemma SplitFirst(a: string, sep: string, b: string)
    requires sep != [] && !Contains(a + sep[..|sep| - 1], sep)
    ensures Split(a + sep + b, sep) == [a] + Split(b, sep)
  {
    var s := a + sep + b;
    assert s[|a|..|a| + |sep|] == sep;
    assert OccursAt(s, sep, |a|);
    var i := Index(s, sep).value;
    if i < |a| {
      assert s[i..i + |sep|] == (a + sep[..|sep| - 1])[i..i + |sep|];
      assert OccursAt(a + sep[..|sep| - 1], sep, i);
      assert false;
    }
    assert s[..i] == a;
    assert s[i + |sep|..] == b;
  }

  /** With a one-character separator found in neither piece, two pieces joined by it split back into them. */
  lemma SplitTwoPieces(a: string, c: char, b: string)
    requires c !in a && c !in b
    ensures Split(a + [c] + b, [c]) == [a, b]
  {
    assert a + [c][..0] == a;
    ContainsChar(a, c);
    SplitFirst(a, [c], b);
    ContainsChar(b, c);
    SplitWhole(b, [c]);
  }

  /** A list cell of two tokens. */
  lemma SplitTwoTokens()
    ensures Split("1:a,2:b", ",") == ["1:a", "2:b"]
  {
    SplitTwoPieces("1:a", ',', "2:b");
    assert "1:a" + [','] + "2:b" == "1:a,2:b";
  }

  /** A doubled one-character separator leaves an empty piece between the two around it. */
  lemma SplitDoubled(a: string, c: char, b: string)
    requires c !in a && c !in b
    ensures Split(a + [c, c] + b, [c]) == [a, [], b]
  {
    var t := [c] + b;
    assert Split(a + [c] + t, [c]) == [a] + Split(t, [c]) by {
      assert a + [c][..0] == a;
      ContainsChar(a, c);
      SplitFirst(a, [c], t);
    }
    assert Split(t, [c]) == [[], b] by {
      SplitTwoPieces([], c, b);
      assert [] + [c] + b == t;
    }
    assert a + [c] + t == a + [c, c] + b;
  }

  /** A doubled separator leaves an empty token between the two. */
  lemma SplitEmptyToken()
    ensures Split("1:a,,2:b", ",") == ["1:a", "", "2:b"]
  {
    SplitDoubled("1:a", ',', "2:b");
    assert "1:a" + [',', ','] + "2:b" == "1:a,,2:b";
  }

  /** A cell whose second token is not a pair. */
  lemma SplitBadToken()
    ensures Split("1:a,xyz", ",") == ["1:a", "xyz"]
  {
    SplitTwoPieces("1:a", ',', "xyz");
    assert "1:a" + [','] + "xyz" == "1:a,xyz";
  }

  /** An empty cell is one empty token. */
  lemma SplitEmptyCell()
    ensures Split("", ",") == [""]
  {
  }
}
