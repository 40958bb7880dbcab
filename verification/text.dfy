/**
 Splitting a string on one separator character, with the meaning of Rust's
 `str::split(char)`: a string with n separators splits into n + 1 pieces, empty
 pieces included, so the empty string splits into a single empty piece.
 `Join` is the inverse operation and serves as the reference definition.
 */
module Text {

  /** Concatenates `pieces`, putting `sep` between neighbouring pieces. */
  function Join(pieces: seq<string>, sep: char): string
    decreases |pieces|
  {
    if |pieces| == 0 then ""
    else if |pieces| == 1 then pieces[0]
    else pieces[0] + [sep] + Join(pieces[1..], sep)
  }

  /** The pieces of `s` between occurrences of `sep`, in order. */
  function Split(s: string, sep: char): (pieces: seq<string>)
    ensures |pieces| >= 1
    decreases |s|
  {
    if |s| == 0 then [""]
    else
      var rest := Split(s[1..], sep);
      if s[0] == sep then [""] + rest
      else
        var pieces := [[s[0]] + rest[0]] + rest[1..];
        assert pieces[1..] == rest[1..];
        pieces
  }

  /** No piece of a split holds the separator. */
  lemma {:induction false} SplitPiecesLackSeparator(s: string, sep: char)
    ensures forall i :: 0 <= i < |Split(s, sep)| ==> sep !in Split(s, sep)[i]
    decreases |s|
  {
    if |s| > 0 {
      SplitPiecesLackSeparator(s[1..], sep);
      var rest := Split(s[1..], sep);
      if s[0] != sep {
        var pieces := Split(s, sep);
        assert pieces[0] == [s[0]] + rest[0];
        assert forall i :: 1 <= i < |pieces| ==> pieces[i] == rest[i];
      }
    }
  }

  /** A string with n separators splits into n + 1 pieces. */
  lemma {:induction false} SplitCount(s: string, sep: char)
    ensures |Split(s, sep)| == multiset(s)[sep] + 1
    decreases |s|
  {
    if |s| > 0 {
      SplitCount(s[1..], sep);
      assert s == [s[0]] + s[1..];
      assert multiset(s) == multiset{s[0]} + multiset(s[1..]);
    }
  }

  /** Joining a first piece onto the join of the others. */
  lemma JoinCons(head: string, tail: seq<string>, sep: char)
    requires |tail| >= 1
    ensures Join([head] + tail, sep) == head + [sep] + Join(tail, sep)
  {
    assert ([head] + tail)[1..] == tail;
  }

  /** Extending the first piece by one character extends the join by it. */
  lemma JoinExtendFirst(c: char, pieces: seq<string>, sep: char)
    requires |pieces| >= 1
    ensures Join([[c] + pieces[0]] + pieces[1..], sep) == [c] + Join(pieces, sep)
  {
    if |pieces| > 1 {
      JoinCons([c] + pieces[0], pieces[1..], sep);
      JoinCons(pieces[0], pieces[1..], sep);
      assert pieces == [pieces[0]] + pieces[1..];
    }
  }

  /** Joining the pieces of a split gives back the original string. */
  lemma {:induction false} JoinSplit(s: string, sep: char)
    ensures Join(Split(s, sep), sep) == s
    decreases |s|
  {
    if |s| > 0 {
      var rest := Split(s[1..], sep);
      JoinSplit(s[1..], sep);
      assert s == [s[0]] + s[1..];
      if s[0] == sep {
        JoinCons("", rest, sep);
      } else {
        JoinExtendFirst(s[0], rest, sep);
      }
    }
  }

  /** A string without the separator is its own single piece. */
  lemma SplitWithoutSeparator(s: string, sep: char)
    requires sep !in s
    ensures Split(s, sep) == [s]
  {
    
    JoinSplit(s, sep);
  }

  /** One step of `Split`: how the first character of `s` shapes its pieces. */
  lemma SplitCons(c: char, rest: string, sep: char)
    ensures c == sep ==> Split([c] + rest, sep) == [""] + Split(rest, sep)
    ensures c != sep ==> Split([c] + rest, sep)
                         == [[c] + Split(rest, sep)[0]] + Split(rest, sep)[1..]
  {
    assert ([c] + rest)[1..] == rest;
  }


  /** Sequence concatenation is associative. Stated once so that proofs need
      not reason about sequence extensionality themselves. */
  lemma ConcatAssociative<T>(x: seq<T>, y: seq<T>, z: seq<T>)
    ensures x + (y + z) == (x + y) + z
  {
  }

  /** The inductive step of `SplitAroundSeparator` for a leading separator. */
  lemma SplitAroundSeparatorStepSep(a: string, b: string, sep: char)
    requires Split(a + [sep] + b, sep) == Split(a, sep) + Split(b, sep)
    ensures Split([sep] + a + [sep] + b, sep) == Split([sep] + a, sep) + Split(b, sep)
  {
    assert [sep] + a + [sep] + b == [sep] + (a + [sep] + b);
    SplitCons(sep, a, sep);
    SplitCons(sep, a + [sep] + b, sep);
    ConcatAssociative([""], Split(a, sep), Split(b, sep));
  }

  /** The inductive step of `SplitAroundSeparator` for a leading non-separator. */
  lemma SplitAroundSeparatorStepOther(c: char, a: string, b: string, sep: char)
    requires c != sep
    requires Split(a + [sep] + b, sep) == Split(a, sep) + Split(b, sep)
    ensures Split([c] + a + [sep] + b, sep) == Split([c] + a, sep) + Split(b, sep)
  {
    var ra := Split(a, sep);
    var rb := Split(b, sep);
    var m := a + [sep] + b;
    assert [c] + a + [sep] + b == [c] + m;
    SplitCons(c, a, sep);
    SplitCons(c, m, sep);
    PrependToFirst([c], ra, rb);
  }


  /** Extending the first element of a concatenation extends the first element of its left part. */
  lemma PrependToFirst(x: string, ra: seq<string>, rb: seq<string>)
    requires |ra| >= 1
    ensures [x + (ra + rb)[0]] + (ra + rb)[1..] == ([x + ra[0]] + ra[1..]) + rb
  {
    assert (ra + rb)[0] == ra[0];
    assert (ra + rb)[1..] == ra[1..] + rb;
    ConcatAssociative([x + ra[0]], ra[1..], rb);
  }

  /** One separator between `a` and `b` ends the pieces of `a` and starts those of `b`. */
  lemma {:induction false} SplitAroundSeparator(a: string, b: string, sep: char)
    ensures Split(a + [sep] + b, sep) == Split(a, sep) + Split(b, sep)
    decreases |a|
  {
    if |a| == 0 {
      assert a + [sep] + b == [sep] + b;
      SplitCons(sep, b, sep);
      assert [""] + Split(b, sep) == Split(a, sep) + Split(b, sep);
    } else {
      SplitAroundSeparator(a[1..], b, sep);
      if a[0] == sep {
        SplitAroundSeparatorStepSep(a[1..], b, sep);
      } else {
        SplitAroundSeparatorStepOther(a[0], a[1..], b, sep);
      }
      assert a == [a[0]] + a[1..];
    }
  }

  /** Splitting undoes joining when no piece holds the separator. */
  lemma {:induction false} SplitJoin(pieces: seq<string>, sep: char)
    requires |pieces| >= 1
    requires forall i :: 0 <= i < |pieces| ==> sep !in pieces[i]
    ensures Split(Join(pieces, sep), sep) == pieces
    decreases |pieces|
  {
    SplitWithoutSeparator(pieces[0], sep);
    if |pieces| > 1 {
      var tail := pieces[1..];
      SplitJoin(tail, sep);
      JoinCons(pieces[0], tail, sep);
      SplitAroundSeparator(pieces[0], Join(tail, sep), sep);
      assert pieces == [pieces[0]] + tail;
    }
  }

  /** A non-empty sequence of pieces joins to its first piece followed by the
      joined rest, if any. */
  lemma JoinUnfold(pieces: seq<string>, sep: char)
    requires |pieces| >= 1
    ensures Join(pieces, sep)
            == pieces[0] + (if |pieces| == 1 then "" else [sep] + Join(pieces[1..], sep))
  {
    if |pieces| > 1 {
      ConcatAssociative(pieces[0], [sep], Join(pieces[1..], sep));
    }
  }

  /** A string of at least three pieces starts with its first three pieces joined. */
  lemma JoinFirstThree(pieces: seq<string>, sep: char)
    requires |pieces| >= 3
    ensures Join(pieces, sep) == pieces[0] + [sep] + pieces[1] + [sep] + pieces[2]
                                 + (if |pieces| == 3 then "" else [sep] + Join(pieces[3..], sep))
  {
    var p0, p1, p2 := pieces[0], pieces[1], pieces[2];
    var rest := if |pieces| == 3 then "" else [sep] + Join(pieces[3..], sep);
    var j2 := Join(pieces[2..], sep);
    assert j2 == p2 + rest by {
      JoinUnfold(pieces[2..], sep);
      assert pieces[2..][1..] == pieces[3..];
    }
    var j1 := Join(pieces[1..], sep);
    assert j1 == p1 + [sep] + j2 by {
      JoinUnfold(pieces[1..], sep);
      assert pieces[1..][1..] == pieces[2..];
      ConcatAssociative(p1, [sep], j2);
    }
    assert Join(pieces, sep) == p0 + [sep] + j1 by {
      JoinUnfold(pieces, sep);
      ConcatAssociative(p0, [sep], j1);
    }
    ConcatAssociative(p1 + [sep], p2, rest);
    ConcatAssociative(p0 + [sep], p1 + [sep] + p2, rest);
    ConcatAssociative(p0 + [sep], p1 + [sep], p2);
    ConcatAssociative(p0 + [sep], p1, [sep]);
  }
}
