/** The string operations the transcript normaliser is built from: Python's
    `str.split(sep)` and `sep.join`, `str.replace`, and the collapsing of
    space runs done by `re.sub(' +', ' ', s)`. */
module TextOps {

  // ---------------------------------------------------------------- split and join

  /** `s.split(sep)`: the pieces between separators, empty pieces included;
      there is always at least one piece. */
  function Split(s: string, sep: char): (r: seq<string>)
    ensures |r| >= 1
  {
    if s == [] then [[]] else Prepend(s[0], Split(s[1..], sep), sep)
  }

  /** The pieces of `[c] + s`, given the pieces `ps` of `s`: a separator
      starts a new empty piece, any other character joins the first piece. */
  function Prepend(c: char, ps: seq<string>, sep: char): (r: seq<string>)
    requires |ps| >= 1
    ensures |r| >= 1
  {
    if c == sep then [[]] + ps else [[c] + ps[0]] + ps[1..]
  }

  /** No piece of a split holds the separator. */
  lemma {:induction false} SplitPieces(s: string, sep: char)
    ensures forall k :: 0 <= k < |Split(s, sep)| ==> sep !in Split(s, sep)[k]
  {
    if s != [] {
      var rest := Split(s[1..], sep);
      SplitPieces(s[1..], sep);
      if s[0] != sep {
        var r := Split(s, sep);
        forall k | 0 <= k < |r| ensures sep !in r[k] {
          if k > 0 { assert r[k] == rest[k]; }
        }
      }
    }
  }

  /** `sep.join(ts)`. */
  function Join(ts: seq<string>, sep: char): string
  {
    if ts == [] then []
    else if |ts| == 1 then ts[0]
    else ts[0] + [sep] + Join(ts[1..], sep)
  }

  lemma JoinCons(t: string, ts: seq<string>, sep: char)
    requires ts != []
    ensures Join([t] + ts, sep) == t + [sep] + Join(ts, sep)
  {
    assert ([t] + ts)[1..] == ts;
  }

  lemma JoinPrependChar(c: char, ts: seq<string>, sep: char)
    requires ts != []
    ensures Join([[c] + ts[0]] + ts[1..], sep) == [c] + Join(ts, sep)
  {
    if |ts| > 1 {
      JoinCons([c] + ts[0], ts[1..], sep);
      JoinCons(ts[0], ts[1..], sep);
      assert [ts[0]] + ts[1..] == ts;
    }
  }

  /** Joining the pieces of `[c] + s` gives `c` followed by the join of the
      pieces of `s`. */
  lemma JoinPrepend(c: char, ps: seq<string>, sep: char)
    requires |ps| >= 1
    ensures Join(Prepend(c, ps, sep), sep) == [c] + Join(ps, sep)
  {
    if c == sep {
      JoinCons([], ps, sep);
    } else {
      JoinPrependChar(c, ps, sep);
    }
  }

  /** Joining the pieces of a split gives the string back. */
  lemma {:induction false} JoinSplit(s: string, sep: char)
    ensures Join(Split(s, sep), sep) == s
  {
    if s != [] {
      var rest := Split(s[1..], sep);
      JoinSplit(s[1..], sep);
      JoinPrepend(s[0], rest, sep);
      assert s == [s[0]] + s[1..];
    }
  }

  lemma {:induction false} SplitNoSep(t: string, sep: char)
    requires sep !in t
    ensures Split(t, sep) == [t]
  {
    if t != [] {
      SplitNoSep(t[1..], sep);
      assert t == [t[0]] + t[1..];
    }
  }

  lemma {:induction false} SplitAfterPiece(t: string, u: string, sep: char)
    requires sep !in t
    ensures Split(t + [sep] + u, sep) == [t] + Split(u, sep)
  {
    if t == [] {
      assert ([sep] + u)[1..] == u;
    } else {
      assert (t + [sep] + u)[1..] == t[1..] + [sep] + u;
      SplitAfterPiece(t[1..], u, sep);
      assert [t[0]] + t[1..] == t;
    }
  }

  /** Splitting at a separator splits the two sides independently. */
  lemma {:induction false} SplitConcat(u: string, v: string, sep: char)
    ensures Split(u + [sep] + v, sep) == Split(u, sep) + Split(v, sep)
    decreases |u|
  {
    if u == [] {
      assert ([sep] + v)[1..] == v;
    } else {
      var s := u + [sep] + v;
      var a, b := Split(u[1..], sep), Split(v, sep);
      assert s[0] == u[0] && s[1..] == u[1..] + [sep] + v;
      SplitConcat(u[1..], v, sep);
      PrependAppend(u[0], a, b, sep);
    }
  }

  lemma PrependAppend(c: char, a: seq<string>, b: seq<string>, sep: char)
    requires |a| >= 1
    ensures Prepend(c, a + b, sep) == Prepend(c, a, sep) + b
  {
    if c != sep {
      assert (a + b)[0] == a[0] && (a + b)[1..] == a[1..] + b;
    }
  }

  /** Splitting a join of separator-free pieces gives the pieces back. */
  lemma {:induction false} SplitJoin(ts: seq<string>, sep: char)
    requires ts != []
    requires forall k :: 0 <= k < |ts| ==> sep !in ts[k]
    ensures Split(Join(ts, sep), sep) == ts
  {
    if |ts| == 1 {
      SplitNoSep(ts[0], sep);
    } else {
      SplitJoin(ts[1..], sep);
      SplitAfterPiece(ts[0], Join(ts[1..], sep), sep);
      assert [ts[0]] + ts[1..] == ts;
    }
  }

  /** A character other than the separator is in a join exactly when it is
      in one of the pieces. */
  lemma {:induction false} JoinMembers(ts: seq<string>, sep: char, c: char)
    requires c != sep
    ensures c in Join(ts, sep) <==> exists k :: 0 <= k < |ts| && c in ts[k]
  {
    if |ts| > 1 {
      JoinMembers(ts[1..], sep, c);
      if c in Join(ts[1..], sep) {
        var k :| 0 <= k < |ts[1..]| && c in ts[1..][k];
        assert c in ts[k + 1];
      }
      if exists k :: 0 <= k < |ts| && c in ts[k] {
        var k :| 0 <= k < |ts| && c in ts[k];
        if k > 0 { assert c in ts[1..][k - 1]; }
      }
    }
  }

  // ---------------------------------------------------------------- replace

  /** `s.replace(pat, rep)`: occurrences are replaced from left to right
      without overlap; an empty pattern matches between every two characters
      and at both ends. */
  function ReplaceAll(s: string, pat: string, rep: string): string
    decreases |s|
  {
    if pat == [] then
      if s == [] then rep else rep + [s[0]] + ReplaceAll(s[1..], pat, rep)
    else if |pat| <= |s| && s[..|pat|] == pat then
      rep + ReplaceAll(s[|pat|..], pat, rep)
    else if s == [] then []
    else [s[0]] + ReplaceAll(s[1..], pat, rep)
  }

  /** One step of `ReplaceAll` where the pattern does not start here. */
  lemma ReplaceAllSkip(s: string, pat: string, rep: string)
    requires pat != [] && s != [] && (|s| < |pat| || s[0] != pat[0])
    ensures ReplaceAll(s, pat, rep) == [s[0]] + ReplaceAll(s[1..], pat, rep)
  {
    if |pat| <= |s| {
      assert s[..|pat|][0] == s[0];
    }
  }

  /** `c` in `s` with every `c` taken out; the reference for removing a
      character. */
  function RemoveChar(s: string, c: char): (r: string)
    ensures c !in r
    ensures |r| <= |s|
  {
    if s == [] then []
    else (if s[0] == c then [] else [s[0]]) + RemoveChar(s[1..], c)
  }

  /** Replacing a one-character pattern by nothing removes that character. */
  lemma {:induction false} ReplaceCharByNothing(s: string, c: char)
    ensures ReplaceAll(s, [c], []) == RemoveChar(s, c)
  {
    if s != [] {
      ReplaceCharByNothing(s[1..], c);
      assert s[..1] == [s[0]];
    }
  }

  /** A character in neither the text nor the replacement is not in the
      result. */
  lemma {:induction false} ReplaceAvoids(s: string, pat: string, rep: string, c: char)
    requires c !in s && c !in rep
    ensures c !in ReplaceAll(s, pat, rep)
    decreases |s|
  {
    if pat == [] {
      if s != [] { ReplaceAvoids(s[1..], pat, rep, c); }
    } else if |pat| <= |s| && s[..|pat|] == pat {
      assert forall k :: 0 <= k < |s| - |pat| ==> s[|pat|..][k] == s[k + |pat|];
      ReplaceAvoids(s[|pat|..], pat, rep, c);
    } else if s != [] {
      ReplaceAvoids(s[1..], pat, rep, c);
    }
  }

  predicate OccursAt(s: string, pat: string, i: int)
  {
    0 <= i && i + |pat| <= |s| && s[i..i + |pat|] == pat
  }

  /** Text in which a non-empty pattern does not occur is left as it is. */
  lemma {:induction false} ReplaceAbsent(s: string, pat: string, rep: string)
    requires pat != []
    requires forall i :: 0 <= i <= |s| ==> !OccursAt(s, pat, i)
    ensures ReplaceAll(s, pat, rep) == s
    decreases |s|
  {
    if s != [] {
      assert !OccursAt(s, pat, 0);
      if |pat| <= |s| {
        assert s[0..|pat|] == s[..|pat|];
      }
      forall i | 0 <= i <= |s[1..]| ensures !OccursAt(s[1..], pat, i) {
        assert !OccursAt(s, pat, i + 1);
        if i + |pat| <= |s[1..]| {
          assert s[1..][i..i + |pat|] == s[i + 1..i + 1 + |pat|];
        }
      }
      ReplaceAbsent(s[1..], pat, rep);
      assert s == [s[0]] + s[1..];
    }
  }

  // ---------------------------------------------------------------- space runs

  /** `re.sub(' +', ' ', s)`: every run of spaces becomes one space. */
  function CollapseSpaces(s: string): string
    decreases |s|
  {
    if s == [] then []
    else
      var r := CollapseSpaces(s[..|s| - 1]);
      if s[|s| - 1] == ' ' && r != [] && r[|r| - 1] == ' ' then r else r + [s[|s| - 1]]
  }

  /** Collapsing never lengthens the text, and the result ends in a space
      exactly when the text does. */
  lemma {:induction false} CollapseSpacesEnds(s: string)
    ensures |CollapseSpaces(s)| <= |s|
    ensures (CollapseSpaces(s) != [] && CollapseSpaces(s)[|CollapseSpaces(s)| - 1] == ' ') <==> (s != [] && s[|s| - 1] == ' ')
    decreases |s|
  {
    if s != [] {
      CollapseSpacesEnds(s[..|s| - 1]);
    }
  }

  /** No two spaces in a row. */
  predicate SingleSpaced(s: string)
  {
    forall i :: 0 <= i < |s| - 1 ==> !(s[i] == ' ' && s[i + 1] == ' ')
  }

  /** After collapsing there are no two spaces in a row. */
  lemma {:induction false} CollapseSingleSpaced(s: string)
    ensures SingleSpaced(CollapseSpaces(s))
    decreases |s|
  {
    if s != [] {
      CollapseSingleSpaced(s[..|s| - 1]);
    }
  }

  /** Text with no two spaces in a row is left as it is; hence collapsing is
      idempotent. */
  lemma {:induction false} CollapseFixed(s: string)
    requires SingleSpaced(s)
    ensures CollapseSpaces(s) == s
    decreases |s|
  {
    if s != [] {
      var init := s[..|s| - 1];
      assert SingleSpaced(init) by {
        forall i | 0 <= i < |init| - 1 ensures !(init[i] == ' ' && init[i + 1] == ' ') {
          assert init[i] == s[i] && init[i + 1] == s[i + 1];
        }
      }
      CollapseFixed(init);
      if |s| >= 2 {
        assert !(s[|s| - 2] == ' ' && s[|s| - 1] == ' ');
      }
      assert init + [s[|s| - 1]] == s;
    }
  }

  lemma CollapseIdempotent(s: string)
    ensures CollapseSpaces(CollapseSpaces(s)) == CollapseSpaces(s)
  {
    CollapseSingleSpaced(s);
    CollapseFixed(CollapseSpaces(s));
  }

  /** Reference definition: the text without every space that directly
      follows another space, so each run keeps exactly its first space. */
  function DropRepeatedSpaces(s: string): string
    decreases |s|
  {
    if |s| <= 1 then s
    else
      var i := |s| - 1;
      DropRepeatedSpaces(s[..i]) + (if s[i] == ' ' && s[i - 1] == ' ' then [] else [s[i]])
  }

  /** Collapsing replaces each run of spaces by exactly one space and keeps
      every other character in place. */
  lemma {:induction false} CollapseDropsRepeatedSpaces(s: string)
    ensures CollapseSpaces(s) == DropRepeatedSpaces(s)
    decreases |s|
  {
    if |s| == 1 {
      assert s[..0] == [];
      assert CollapseSpaces(s) == CollapseSpaces([]) + [s[0]];
    } else if |s| >= 2 {
      CollapseDropsRepeatedSpaces(s[..|s| - 1]);
      CollapseDropStep(s);
    }
  }

  /** One step of `CollapseDropsRepeatedSpaces`: the last character is kept
      by both or dropped by both. */
  lemma CollapseDropStep(s: string)
    requires |s| >= 2 && CollapseSpaces(s[..|s| - 1]) == DropRepeatedSpaces(s[..|s| - 1])
    ensures CollapseSpaces(s) == DropRepeatedSpaces(s)
  {
    var n := |s| - 1;
    var init, x := s[..n], s[n];
    var r := CollapseSpaces(init);
    var repeated := x == ' ' && s[n - 1] == ' ';
    assert (r != [] && r[|r| - 1] == ' ') == (s[n - 1] == ' ') by {
      CollapseSpacesEnds(init);
      assert init[n - 1] == s[n - 1];
    }
    assert CollapseSpaces(s) == if repeated then r else r + [x];
    assert DropRepeatedSpaces(s) == DropRepeatedSpaces(init) + (if repeated then [] else [x]);
  }

  /** Collapsing only drops spaces: the characters are those of the input. */
  lemma {:induction false} CollapseKeepsChars(s: string, c: char)
    ensures c in CollapseSpaces(s) <==> c in s
    decreases |s|
  {
    if s != [] {
      var init := s[..|s| - 1];
      CollapseKeepsChars(init, c);
      assert s == init + [s[|s| - 1]];
    }
  }

  lemma {:induction false} RemoveCharAppend(a: string, x: char, c: char)
    ensures RemoveChar(a + [x], c) == RemoveChar(a, c) + (if x == c then [] else [x])
    decreases |a|
  {
    if a != [] {
      assert (a + [x])[1..] == a[1..] + [x];
      RemoveCharAppend(a[1..], x, c);
    }
  }

  /** Collapsing only drops spaces: with the spaces taken out, the text is
      the same character for character. */
  lemma {:induction false} CollapseKeepsNonSpaces(s: string)
    ensures RemoveChar(CollapseSpaces(s), ' ') == RemoveChar(s, ' ')
    decreases |s|
  {
    if s != [] {
      var init := s[..|s| - 1];
      var x := s[|s| - 1];
      var r := CollapseSpaces(init);
      CollapseKeepsNonSpaces(init);
      RemoveCharAppend(init, x, ' ');
      assert s == init + [x];
      if !(x == ' ' && r != [] && r[|r| - 1] == ' ') {
        assert CollapseSpaces(s) == r + [x];
        RemoveCharAppend(r, x, ' ');
      }
    }
  }
}
