/** Splitting and joining endpoint lists (src/SyncClient.cpp:73-100). */
module Endpoints {

  predicate Free(s: string, seps: string) {
    forall c <- s :: c !in seps
  }

  /** The position of the first separator, or the length of the string. */
  function FirstOf(s: string, seps: string): (i: nat)
    ensures i <= |s| && Free(s[..i], seps) && (i < |s| ==> s[i] in seps)
  {
    if s == [] || s[0] in seps then 0
    else
      assert s == [s[0]] + s[1..];
      1 + FirstOf(s[1..], seps)
  }

  function Split(s: string, seps: string): seq<string>
    decreases |s|
  {
    var i := FirstOf(s, seps);
    if i < |s| then [s[..i]] + Split(s[i + 1..], seps)
    else if s == [] then [] else [s]
  }

  function Join(pieces: seq<string>, sep: string): string {
    if pieces == [] then []
    else if |pieces| == 1 then pieces[0]
    else pieces[0] + sep + Join(pieces[1..], sep)
  }

  // ----- the loops

  method FindFirstOf(s: string, start: nat, seps: string) returns (next: nat)
    requires start <= |s|
    ensures next == start + FirstOf(s[start..], seps)
  {
    next := start;
    while next < |s| && s[next] !in seps
      invariant start <= next <= |s|
      invariant start + FirstOf(s[start..], seps) == next + FirstOf(s[next..], seps)
    {
      assert s[next..][1..] == s[next + 1..];
      next := next + 1;
    }
  }

  method StringSplit(src: string, seps: string) returns (dests: seq<string>)
    ensures dests == Split(src, seps)
  {
    hide FirstOf, Split;
    ghost var whole := Split(src, seps);
    dests := [];
    var start := 0;
    assert src[start..] == src;
    var next := FindFirstOf(src, start, seps);
    while next != |src|
      invariant start <= next <= |src| && next == start + FirstOf(src[start..], seps)
      invariant dests + Split(src[start..], seps) == whole
      decreases |src| - start
    {
      SplitStep(src, start, seps);
      assert dests + ([src[start..next]] + Split(src[next + 1..], seps))
          == dests + [src[start..next]] + Split(src[next + 1..], seps);
      dests := dests + [src[start..next]];
      start := next + 1;
      next := FindFirstOf(src, start, seps);
    }
    SplitStep(src, start, seps);
    if start != |src| {
      dests := dests + [src[start..]];
    }
  }

  lemma SplitStep(src: string, start: nat, seps: string)
    requires start <= |src|
    ensures var next := start + FirstOf(src[start..], seps);
            Split(src[start..], seps) == if next < |src| then [src[start..next]] + Split(src[next + 1..], seps)
                                         else if start == |src| then [] else [src[start..]]
  {
    hide FirstOf;
    var rest := src[start..];
    SplitUnfold(rest, seps);
    hide Split;
    var i := FirstOf(rest, seps);
    if i < |rest| {
      PieceAndRest(src, start, i);
    }
  }

  lemma PieceAndRest(s: string, start: nat, i: nat)
    requires start + i < |s|
    ensures s[start..][..i] == s[start..start + i]
    ensures s[start..][i + 1..] == s[start + i + 1..]
  {
  }

  lemma SplitUnfold(s: string, seps: string)
    ensures var i := FirstOf(s, seps);
            Split(s, seps) == if i < |s| then [s[..i]] + Split(s[i + 1..], seps) else if s == [] then [] else [s]
  {
    hide FirstOf;
  }

  method StringJoin(srcs: seq<string>, sep: string) returns (ss: string)
    ensures ss == Join(srcs, sep)
  {
    ss := [];
    if srcs != [] {
      ss := srcs[0];
      for i := 1 to |srcs|
        invariant ss == Join(srcs[..i], sep)
      {
        JoinSnoc(srcs[..i], sep, srcs[i]);
        assert srcs[..i] + [srcs[i]] == srcs[..i + 1];
        ss := ss + sep + srcs[i];
      }
      assert srcs[..|srcs|] == srcs;
    }
  }

  lemma {:induction false} JoinSnoc(pieces: seq<string>, sep: string, last: string)
    requires pieces != []
    ensures Join(pieces + [last], sep) == Join(pieces, sep) + sep + last
  {
    if |pieces| > 1 {
      JoinSnoc(pieces[1..], sep, last);
      assert (pieces + [last])[1..] == pieces[1..] + [last];
      calc {
        Join(pieces + [last], sep);
        pieces[0] + sep + (Join(pieces[1..], sep) + sep + last);
        Join(pieces, sep) + sep + last;
      }
    }
  }

  // ----- round trips

  /** One trailing separator, if there is one, does not survive splitting. */
  function WithoutTrailing(s: string, seps: string): string {
    if s != [] && s[|s| - 1] in seps then s[..|s| - 1] else s
  }

  /** Every separator replaced by the joiner. */
  function Normalise(s: string, seps: string, joiner: string): string {
    if s == [] then []
    else (if s[0] in seps then joiner else [s[0]]) + Normalise(s[1..], seps, joiner)
  }

  lemma {:induction false} NormaliseFree(s: string, seps: string, joiner: string, rest: string)
    requires Free(s, seps)
    ensures Normalise(s + rest, seps, joiner) == s + Normalise(rest, seps, joiner)
  {
    if s == [] {
      assert s + rest == rest;
    } else {
      assert s == [s[0]] + s[1..] && (s + rest)[1..] == s[1..] + rest;
      NormaliseFree(s[1..], seps, joiner, rest);
    }
  }

  lemma {:induction false} PiecesAreFree(s: string, seps: string)
    ensures forall p <- Split(s, seps) :: Free(p, seps)
    ensures Split(s, seps) == [] <==> s == []
    decreases |s|
  {
    var i := FirstOf(s, seps);
    if i < |s| {
      PiecesAreFree(s[i + 1..], seps);
    } else {
      assert s[..i] == s;
    }
  }

  /** A separator behind a free piece becomes the joiner. */
  lemma NormalisePiece(p: string, c: char, rest: string, seps: string, joiner: string)
    requires Free(p, seps) && c in seps
    ensures Normalise(p + [c] + rest, seps, joiner) == p + joiner + Normalise(rest, seps, joiner)
  {
    assert p + [c] + rest == p + ([c] + rest) && ([c] + rest)[1..] == rest;
    NormaliseFree(p, seps, joiner, [c] + rest);
    assert p + (joiner + Normalise(rest, seps, joiner)) == p + joiner + Normalise(rest, seps, joiner);
  }

  lemma NormaliseAlone(p: string, seps: string, joiner: string)
    requires Free(p, seps)
    ensures Normalise(p, seps, joiner) == p
  {
    NormaliseFree(p, seps, joiner, []);
    assert p + [] == p;
  }

  lemma WithoutTrailingSuffix(p: string, c: char, rest: string, seps: string)
    requires c in seps
    ensures WithoutTrailing(p + [c] + rest, seps) == if rest == [] then p else p + [c] + WithoutTrailing(rest, seps)
  {
    if rest == [] {
      assert p + [c] + rest == p + [c];
    } else {
      var s := p + [c] + rest;
      assert s[|s| - 1] == rest[|rest| - 1];
      assert s[..|s| - 1] == p + [c] + rest[..|rest| - 1];
    }
  }

  /** Joining what was split gives the string back, with each separator turned into the joiner and one trailing one lost. */
  lemma {:induction false} JoinOfSplit(s: string, seps: string, joiner: string)
    ensures Join(Split(s, seps), joiner) == Normalise(WithoutTrailing(s, seps), seps, joiner)
    decreases |s|
  {
    var i := FirstOf(s, seps);
    if i < |s| {
      var p, rest := s[..i], s[i + 1..];
      assert s == p + [s[i]] + rest;
      JoinOfSplit(rest, seps, joiner);
      PiecesAreFree(rest, seps);
      WithoutTrailingSuffix(p, s[i], rest, seps);
      NormaliseAlone(p, seps, joiner);
      NormalisePiece(p, s[i], WithoutTrailing(rest, seps), seps, joiner);
      JoinCons(p, Split(rest, seps), joiner);
    } else {
      assert s[..i] == s;
      NormaliseAlone(s, seps, joiner);
    }
  }

  lemma JoinCons(p: string, pieces: seq<string>, joiner: string)
    ensures Join([p] + pieces, joiner) == if pieces == [] then p else p + joiner + Join(pieces, joiner)
  {
    assert ([p] + pieces)[1..] == pieces;
  }

  lemma {:induction false} NormaliseSame(s: string, c: char)
    ensures Normalise(s, [c], [c]) == s
  {
    if s != [] {
      NormaliseSame(s[1..], c);
      assert s == [s[0]] + s[1..];
    }
  }

  /** With one separator character, splitting and joining gives the string back but for one trailing separator. */
  lemma JoinOfSplitSame(s: string, c: char)
    ensures Join(Split(s, [c]), [c]) == WithoutTrailing(s, [c])
  {
    JoinOfSplit(s, [c], [c]);
    NormaliseSame(WithoutTrailing(s, [c]), c);
  }

  lemma {:induction false} FirstOfAfterFree(p: string, c: char, rest: string)
    requires Free(p, [c])
    ensures FirstOf(p + [c] + rest, [c]) == |p|
    ensures FirstOf(p, [c]) == |p|
  {
    if p != [] {
      assert p == [p[0]] + p[1..];
      assert (p + [c] + rest)[1..] == p[1..] + [c] + rest;
      FirstOfAfterFree(p[1..], c, rest);
    }
  }

  lemma {:induction false} SplitOfJoinPieces(pieces: seq<string>, c: char)
    requires forall p <- pieces :: Free(p, [c])
    ensures Split(Join(pieces, [c]), [c])
            == if pieces == [] || pieces[|pieces| - 1] != [] then pieces else pieces[..|pieces| - 1]
  {
    hide Split, FirstOf;
    if pieces == [] {
      SplitFree([], c);
    } else if |pieces| == 1 {
      SplitFree(pieces[0], c);
    } else if |pieces| > 1 {
      var p, tail := pieces[0], pieces[1..];
      SplitOfJoinPieces(tail, c);
      JoinCons(p, tail, [c]);
      SplitCons(p, c, Join(tail, [c]));
      assert pieces == [p] + tail;
      hide Join;
      assert pieces[..|pieces| - 1] == [p] + tail[..|tail| - 1];
    }
  }

  lemma SplitFree(p: string, c: char)
    requires Free(p, [c])
    ensures Split(p, [c]) == if p == [] then [] else [p]
  {
    FirstOfAfterFree(p, c, []);
    SplitUnfold(p, [c]);
    hide Split, FirstOf;
  }

  lemma SplitCons(p: string, c: char, rest: string)
    requires Free(p, [c])
    ensures Split(p + [c] + rest, [c]) == [p] + Split(rest, [c])
  {
    FirstOfAfterFree(p, c, rest);
    SplitUnfold(p + [c] + rest, [c]);
    hide Split, FirstOf;
    assert (p + [c] + rest)[..|p|] == p && (p + [c] + rest)[|p| + 1..] == rest;
  }

  /** Splitting what was joined gives the pieces back if and only if there are none or the last one is not empty. */
  lemma SplitOfJoin(pieces: seq<string>, c: char)
    requires forall p <- pieces :: Free(p, [c])
    ensures Split(Join(pieces, [c]), [c]) == pieces <==> pieces == [] || pieces[|pieces| - 1] != []
  {
    SplitOfJoinPieces(pieces, c);
  }
}
