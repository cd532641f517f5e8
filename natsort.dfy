/** The natural ("numeric-aware") order the tag list is sorted by, in the
    simplified form this model uses: a name is cut into maximal runs of
    decimal digits and runs of other characters; runs are compared one by
    one, digit runs by their numeric value, other runs character by
    character, and a digit run sorts before a text run. */
module NatSort {
  import opened Text

  datatype Chunk = Num(n: nat) | Str(s: string)

  function DigitRunLen(s: string): (n: nat)
    ensures n <= |s|
    ensures forall i :: 0 <= i < n ==> IsDigit(s[i])
    ensures s != [] && IsDigit(s[0]) ==> n > 0
  {
    if s == [] || !IsDigit(s[0]) then 0 else 1 + DigitRunLen(s[1..])
  }

  function TextRunLen(s: string): (n: nat)
    ensures n <= |s|
    ensures s != [] && !IsDigit(s[0]) ==> n > 0
  {
    if s == [] || IsDigit(s[0]) then 0 else 1 + TextRunLen(s[1..])
  }

  /** The natural-order key of a name. */
  function Chunks(s: string): (r: seq<Chunk>)
    ensures |r| <= |s|
    ensures r == [] <==> s == []
    decreases |s|
  {
    if s == [] then []
    else if IsDigit(s[0]) then
      var n := DigitRunLen(s);
      [Num(DigitsValue(s[..n]))] + Chunks(s[n..])
    else
      var m := TextRunLen(s);
      [Str(s[..m])] + Chunks(s[m..])
  }

  /** Strict lexicographic order on strings by character code. */
  predicate StrLess(a: string, b: string)
  {
    if a == [] then b != []
    else if b == [] then false
    else if a[0] != b[0] then a[0] < b[0]
    else StrLess(a[1..], b[1..])
  }

  predicate ChunkLess(x: Chunk, y: Chunk)
  {
    match (x, y)
    case (Num(m), Num(n)) => m < n
    case (Num(_), Str(_)) => true
    case (Str(_), Num(_)) => false
    case (Str(s), Str(t)) => StrLess(s, t)
  }

  /** Lexicographic order on keys: the first chunk that differs decides, and
      a key that is a prefix of another comes first. */
  predicate ChunksLe(a: seq<Chunk>, b: seq<Chunk>)
  {
    if a == [] then true
    else if b == [] then false
    else if ChunkLess(a[0], b[0]) then true
    else if ChunkLess(b[0], a[0]) then false
    else ChunksLe(a[1..], b[1..])
  }

  /** `a` comes no later than `b` in natural order. */
  predicate NatLe(a: string, b: string)
  {
    ChunksLe(Chunks(a), Chunks(b))
  }

  // ---------------------------------------------------------------------
  // NatLe is a total preorder

  lemma {:induction false} StrLessIrreflexive(a: string)
    ensures !StrLess(a, a)
    decreases |a|
  {
    if a != [] { StrLessIrreflexive(a[1..]); }
  }

  lemma {:induction false} StrLessTrichotomy(a: string, b: string)
    ensures StrLess(a, b) || StrLess(b, a) || a == b
    decreases |a|
  {
    if a != [] && b != [] && a[0] == b[0] {
      StrLessTrichotomy(a[1..], b[1..]);
      if a[1..] == b[1..] {
        assert a == [a[0]] + a[1..] && b == [b[0]] + b[1..];
      }
    }
  }

  lemma {:induction false} StrLessTransitive(a: string, b: string, c: string)
    requires StrLess(a, b) && StrLess(b, c)
    ensures StrLess(a, c)
    decreases |a|
  {
    if a != [] && a[0] == b[0] && b[0] == c[0] {
      StrLessTransitive(a[1..], b[1..], c[1..]);
    }
  }

  lemma ChunkLessIrreflexive(x: Chunk)
    ensures !ChunkLess(x, x)
  {
    if x.Str? { StrLessIrreflexive(x.s); }
  }

  lemma ChunkTrichotomy(x: Chunk, y: Chunk)
    ensures ChunkLess(x, y) || ChunkLess(y, x) || x == y
  {
    if x.Str? && y.Str? { StrLessTrichotomy(x.s, y.s); }
  }

  lemma ChunkLessTransitive(x: Chunk, y: Chunk, z: Chunk)
    requires ChunkLess(x, y) && ChunkLess(y, z)
    ensures ChunkLess(x, z)
  {
    if x.Str? && y.Str? && z.Str? { StrLessTransitive(x.s, y.s, z.s); }
  }

  lemma {:induction false} ChunksLeTotal(a: seq<Chunk>, b: seq<Chunk>)
    ensures ChunksLe(a, b) || ChunksLe(b, a)
    decreases |a|
  {
    if a != [] && b != [] {
      ChunkTrichotomy(a[0], b[0]);
      if a[0] == b[0] {
        ChunkLessIrreflexive(a[0]);
        ChunksLeTotal(a[1..], b[1..]);
      }
    }
  }

  lemma {:induction false} ChunksLeTransitive(a: seq<Chunk>, b: seq<Chunk>, c: seq<Chunk>)
    requires ChunksLe(a, b) && ChunksLe(b, c)
    ensures ChunksLe(a, c)
    decreases |a|
  {
    if a != [] {
      ChunkTrichotomy(a[0], b[0]);
      ChunkTrichotomy(b[0], c[0]);
      if ChunkLess(a[0], b[0]) {
        if ChunkLess(b[0], c[0]) {
          ChunkLessTransitive(a[0], b[0], c[0]);
        }
      } else {
        assert a[0] == b[0];
        if ChunkLess(b[0], c[0]) {
        } else {
          assert b[0] == c[0];
          ChunkLessIrreflexive(a[0]);
          ChunksLeTransitive(a[1..], b[1..], c[1..]);
        }
      }
    }
  }

  /** Any two names are comparable. */
  lemma NatLeTotal(a: string, b: string)
    ensures NatLe(a, b) || NatLe(b, a)
  {
    ChunksLeTotal(Chunks(a), Chunks(b));
  }

  lemma NatLeTransitive(a: string, b: string, c: string)
    requires NatLe(a, b) && NatLe(b, c)
    ensures NatLe(a, c)
  {
    ChunksLeTransitive(Chunks(a), Chunks(b), Chunks(c));
  }

  // ---------------------------------------------------------------------
  // natsorted(names, reverse=True)

  /** Every name is at least as late, in natural order, as every name after
      it. */
  ghost predicate Descending(s: seq<string>)
  {
    forall i, j :: 0 <= i < j < |s| ==> NatLe(s[j], s[i])
  }

  /** A name at least as late as every name of a descending list can go in
      front of it. */
  lemma DescendingCons(h: string, r: seq<string>)
    requires Descending(r)
    requires forall j :: 0 <= j < |r| ==> NatLe(r[j], h)
    ensures Descending([h] + r)
  {
    forall i, j | 0 <= i < j < |[h] + r|
      ensures NatLe(([h] + r)[j], ([h] + r)[i])
    {
      assert ([h] + r)[j] == r[j - 1];
      if i > 0 { assert ([h] + r)[i] == r[i - 1]; }
    }
  }

  /** Every name of a list holding the names of `s` and `x` is no later
      than `h`, when that holds for `x` and for the names of `s`. */
  lemma BoundedByMultiset(h: string, r: seq<string>, s: seq<string>, x: string)
    requires multiset(r) == multiset(s) + multiset{x}
    requires NatLe(x, h) && forall j :: 0 <= j < |s| ==> NatLe(s[j], h)
    ensures forall j :: 0 <= j < |r| ==> NatLe(r[j], h)
  {
    forall j | 0 <= j < |r| ensures NatLe(r[j], h) {
      assert r[j] in multiset(r);
      if r[j] != x {
        assert r[j] in multiset(s);
        var k :| 0 <= k < |s| && s[k] == r[j];
      }
    }
  }

  /** Puts `x` in front of the first name that is not later than it. */
  function InsertDescending(x: string, s: seq<string>): (r: seq<string>)
    requires Descending(s)
    ensures Descending(r)
    ensures multiset(r) == multiset(s) + multiset{x}
  {
    if s == [] then [x]
    else if NatLe(s[0], x) then
      assert forall j :: 0 <= j < |s| ==> NatLe(s[j], x) by {
        forall j | 0 <= j < |s| ensures NatLe(s[j], x) {
          if j > 0 { NatLeTransitive(s[j], s[0], x); }
        }
      }
      DescendingCons(x, s);
      [x] + s
    else
      var rest := InsertDescending(x, s[1..]);
      assert s == [s[0]] + s[1..];
      NatLeTotal(s[0], x);
      BoundedByMultiset(s[0], rest, s[1..], x);
      DescendingCons(s[0], rest);
      [s[0]] + rest
  }

  /** `natsorted(names, reverse=True)`: the same names, each as often as in
      the input, latest first in natural order. */
  function SortDescending(s: seq<string>): (r: seq<string>)
    ensures Descending(r)
    ensures multiset(r) == multiset(s)
  {
    if s == [] then []
    else
      assert s == [s[0]] + s[1..];
      InsertDescending(s[0], SortDescending(s[1..]))
  }

  lemma {:induction false} DigitRunOf(d: string, rest: string)
    requires AllDigits(d) && (rest == [] || !IsDigit(rest[0]))
    ensures DigitRunLen(d + rest) == |d|
    decreases |d|
  {
    if d != [] {
      assert (d + rest)[1..] == d[1..] + rest;
      DigitRunOf(d[1..], rest);
    }
  }

  lemma {:induction false} TextRunOf(t: string, rest: string)
    requires (forall i :: 0 <= i < |t| ==> !IsDigit(t[i])) && (rest == [] || IsDigit(rest[0]))
    ensures TextRunLen(t + rest) == |t|
    decreases |t|
  {
    if t != [] {
      assert (t + rest)[1..] == t[1..] + rest;
      TextRunOf(t[1..], rest);
    }
  }

  /** A text run followed by a digit or nothing is the first chunk. */
  lemma ChunksOfText(t: string, rest: string)
    requires t != [] && forall i :: 0 <= i < |t| ==> !IsDigit(t[i])
    requires rest == [] || IsDigit(rest[0])
    ensures Chunks(t + rest) == [Str(t)] + Chunks(rest)
  {
    var s := t + rest;
    TextRunOf(t, rest);
    assert s[0] == t[0];
    assert s[..|t|] == t && s[|t|..] == rest;
  }

  /** A digit run followed by a non-digit or nothing is the first chunk. */
  lemma ChunksOfDigits(d: string, rest: string)
    requires d != [] && AllDigits(d) && (rest == [] || !IsDigit(rest[0]))
    ensures Chunks(d + rest) == [Num(DigitsValue(d))] + Chunks(rest)
  {
    var s := d + rest;
    DigitRunOf(d, rest);
    assert s[0] == d[0];
    assert s[..|d|] == d && s[|d|..] == rest;
  }

  /** The key of a name made of text, digits, text and digits. */
  lemma ChunksOfFourRuns(t1: string, d1: string, t2: string, d2: string)
    requires t1 != [] && (forall i :: 0 <= i < |t1| ==> !IsDigit(t1[i]))
    requires t2 != [] && (forall i :: 0 <= i < |t2| ==> !IsDigit(t2[i]))
    requires d1 != [] && AllDigits(d1) && d2 != [] && AllDigits(d2)
    ensures Chunks(t1 + (d1 + (t2 + d2))) == [Str(t1), Num(DigitsValue(d1)), Str(t2), Num(DigitsValue(d2))]
  {
    var s3 := t2 + d2;
    var s2 := d1 + s3;
    var c4 := Chunks(d2);
    assert c4 == [Num(DigitsValue(d2))] by {
      assert d2 + [] == d2;
      ChunksOfDigits(d2, []);
    }
    assert Chunks(s3) == [Str(t2)] + c4 by {
      assert d2[0] == d2[0] && IsDigit(d2[0]);
      ChunksOfText(t2, d2);
    }
    assert Chunks(s2) == [Num(DigitsValue(d1))] + Chunks(s3) by {
      assert s3[0] == t2[0];
      ChunksOfDigits(d1, s3);
    }
    assert Chunks(t1 + s2) == [Str(t1)] + Chunks(s2) by {
      assert s2[0] == d1[0];
      ChunksOfText(t1, s2);
    }
  }

  /** The key of "v1." followed by a digit run. */
  lemma ChunksOfV1(d: string)
    requires d != [] && AllDigits(d)
    ensures Chunks("v1." + d) == [Str("v"), Num(1), Str("."), Num(DigitsValue(d))]
  {
    var v, one, dot := "v", "1", ".";
    assert "v1." + d == v + (one + (dot + d));
    ChunksOfFourRuns(v, one, dot, d);
    assert DigitsValue(one) == 1;
  }

  /** Two such keys are ordered by their last numeric run. */
  lemma V1KeysOrder(m: nat, n: nat)
    ensures ChunksLe([Str("v"), Num(1), Str("."), Num(m)], [Str("v"), Num(1), Str("."), Num(n)]) <==> m <= n
  {
    ChunkLessIrreflexive(Str("v"));
    ChunkLessIrreflexive(Str("."));
    var a := [Str("v"), Num(1), Str("."), Num(m)];
    var b := [Str("v"), Num(1), Str("."), Num(n)];
    assert ChunksLe(a, b) == ChunksLe(a[1..], b[1..]) by {
      assert a[0] == Str("v") && b[0] == Str("v");
    }
    assert ChunksLe(a[1..], b[1..]) == ChunksLe(a[2..], b[2..]) by {
      assert a[1..][0] == Num(1) && b[1..][0] == Num(1);
      assert a[1..][1..] == a[2..] && b[1..][1..] == b[2..];
    }
    assert ChunksLe(a[2..], b[2..]) == ChunksLe(a[3..], b[3..]) by {
      assert a[2..][0] == Str(".") && b[2..][0] == Str(".");
      assert a[2..][1..] == a[3..] && b[2..][1..] == b[3..];
    }
    assert a[3..] == [Num(m)] && b[3..] == [Num(n)];
    assert ChunksLe([Num(m)], [Num(n)]) <==> m <= n by {
      assert [Num(m)][1..] == [] && [Num(n)][1..] == [];
      assert ChunksLe([], []);
    }
  }

  /** Names "v1." + digits are ordered by the value of the digits. */
  lemma V1NamesOrder(d: string, e: string)
    requires d != [] && AllDigits(d) && e != [] && AllDigits(e)
    ensures NatLe("v1." + d, "v1." + e) <==> DigitsValue(d) <= DigitsValue(e)
  {
    ChunksOfV1(d);
    ChunksOfV1(e);
    V1KeysOrder(DigitsValue(d), DigitsValue(e));
  }

  lemma SmallDigitValues()
    ensures DigitsValue("10") == 10 && DigitsValue("2") == 2 && DigitsValue("1") == 1
  {
    assert "10"[..1] == "1";
  }

  /** With numeric runs compared by value, "v1.10" is later than "v1.2". */
  lemma VersionTenAfterTwo()
    ensures NatLe("v1.2", "v1.10") && !NatLe("v1.10", "v1.2")
  {
    SmallDigitValues();
    assert "v1.10" == "v1." + "10" && "v1.2" == "v1." + "2";
    V1NamesOrder("2", "10");
    V1NamesOrder("10", "2");
  }

  /** "v1.2" is later than "v1.1". */
  lemma VersionTwoAfterOne()
    ensures NatLe("v1.1", "v1.2") && !NatLe("v1.2", "v1.1")
  {
    SmallDigitValues();
    assert "v1.2" == "v1." + "2" && "v1.1" == "v1." + "1";
    V1NamesOrder("1", "2");
    V1NamesOrder("2", "1");
  }

  /** "v1.10" is later than "v1.1". */
  lemma VersionTenAfterOne()
    ensures NatLe("v1.1", "v1.10") && !NatLe("v1.10", "v1.1")
  {
    SmallDigitValues();
    assert "v1.10" == "v1." + "10" && "v1.1" == "v1." + "1";
    V1NamesOrder("1", "10");
    V1NamesOrder("10", "1");
  }

  lemma SortOne(z: string)
    ensures SortDescending([z]) == [z]
  {
    assert [z][1..] == [];
  }

  /** Inserting a name into a one-name list. */
  lemma InsertIntoOne(x: string, z: string)
    requires NatLe(z, x)
    ensures InsertDescending(x, [z]) == [x, z]
  {
  }

  /** Inserting a name behind a later head. */
  lemma InsertBehindHead(x: string, y: string, z: string)
    requires Descending([y, z]) && !NatLe(y, x) && NatLe(z, x)
    ensures InsertDescending(x, [y, z]) == [y, x, z]
  {
    assert [y, z][1..] == [z];
    InsertIntoOne(x, z);
  }

  /** Three names, the second latest and the third earliest, are listed
      second, first, third. */
  lemma SortThree(x: string, y: string, z: string)
    requires !NatLe(y, x)
    requires NatLe(z, x)
    requires NatLe(z, y)
    ensures SortDescending([x, y, z]) == [y, x, z]
  {
    SortOne(z);
    InsertIntoOne(y, z);
    assert SortDescending([y, z]) == [y, z] by {
      assert [y, z][1..] == [z];
    }
    assert [x, y, z][1..] == [y, z];
    InsertBehindHead(x, y, z);
  }

  /** The tag list ["v1.2", "v1.10", "v1.1"] is listed as
      ["v1.10", "v1.2", "v1.1"]. */
  lemma VersionTagsSorted()
    ensures SortDescending(["v1.2", "v1.10", "v1.1"]) == ["v1.10", "v1.2", "v1.1"]
  {
    VersionTenAfterTwo();
    VersionTwoAfterOne();
    VersionTenAfterOne();
    SortThree("v1.2", "v1.10", "v1.1");
  }
}
