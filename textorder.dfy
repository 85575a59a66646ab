/**
 * The order of the `issue` column. The column is declared TEXT with no
 * collation, so SQLite compares with BINARY: the UTF-8 bytes with memcmp,
 * which orders strings by their code points, a proper prefix first.
 */
module TextOrder {

  /** `a` sorts strictly before `b` under SQLite's BINARY collation. */
  predicate Less(a: string, b: string)
    decreases |a|
  {
    if a == [] then b != []
    else if b == [] then false
    else if a[0] != b[0] then a[0] < b[0]
    else Less(a[1..], b[1..])
  }

  /**
   * Code-point order is not draw order: "1000" sorts before "999", and the
   * key "None" of an item without an issue number sorts after every key
   * made of digits, here "20240101".
   */
  lemma NotChronological()
    ensures Less("1000", "999")
    ensures Less("20240101", "None")
  {
  }

  lemma {:induction false} LessIrreflexive(a: string)
    ensures !Less(a, a)
    decreases |a|
  {
    if a != [] {
      LessIrreflexive(a[1..]);
    }
  }

  lemma {:induction false} LessAsymmetric(a: string, b: string)
    requires Less(a, b)
    ensures !Less(b, a)
    decreases |a|
  {
    if a != [] && b != [] && a[0] == b[0] {
      LessAsymmetric(a[1..], b[1..]);
    }
  }

  lemma {:induction false} LessTransitive(a: string, b: string, c: string)
    requires Less(a, b) && Less(b, c)
    ensures Less(a, c)
    decreases |a|
  {
    if a != [] && a[0] == b[0] && b[0] == c[0] {
      LessTransitive(a[1..], b[1..], c[1..]);
    }
  }

  lemma {:induction false} LessTotal(a: string, b: string)
    requires a != b
    ensures Less(a, b) || Less(b, a)
    decreases |a|
  {
    if a != [] && b != [] && a[0] == b[0] {
      assert a == [a[0]] + a[1..] && b == [b[0]] + b[1..];
      LessTotal(a[1..], b[1..]);
    }
  }

  /** `Less` is a strict total order on strings. */
  lemma LessIsStrictTotalOrder()
    ensures forall a :: !Less(a, a)
    ensures forall a, b :: Less(a, b) ==> !Less(b, a)
    ensures forall a, b, c :: Less(a, b) && Less(b, c) ==> Less(a, c)
    ensures forall a, b :: a != b ==> Less(a, b) || Less(b, a)
  {
    forall a { LessIrreflexive(a); }
    forall a, b | Less(a, b) { LessAsymmetric(a, b); }
    forall a, b, c | Less(a, b) && Less(b, c) { LessTransitive(a, b, c); }
    forall a, b | a != b { LessTotal(a, b); }
  }

  /** `m` is the member of `s` that every other member sorts before. */
  predicate IsGreatest(m: string, s: set<string>)
  {
    m in s && forall k :: k in s && k != m ==> Less(k, m)
  }

  lemma {:induction false} GreatestExists(s: set<string>)
    requires s != {}
    ensures exists m :: IsGreatest(m, s)
    decreases |s|
  {
    var x :| x in s;
    if s != {x} {
      var rest := s - {x};
      GreatestExists(rest);
      var m :| IsGreatest(m, rest);
      LessIsStrictTotalOrder();
      if Less(m, x) {
        assert IsGreatest(x, s);
      } else {
        assert IsGreatest(m, s);
      }
    } else {
      assert IsGreatest(x, s);
    }
  }

  /** The greatest issue of a non-empty set: what `ORDER BY issue DESC` yields first. */
  function Greatest(s: set<string>): (m: string)
    requires s != {}
    ensures m in s
    ensures forall k :: k in s && k != m ==> Less(k, m)
  {
    GreatestExists(s);
    LessIsStrictTotalOrder();
    var m :| IsGreatest(m, s);
    m
  }

  /** Each entry sorts strictly after every later one. */
  ghost predicate Descending(r: seq<string>)
  {
    forall i, j :: 0 <= i < j < |r| ==> Less(r[j], r[i])
  }

  /** The issues of `s` in the order `ORDER BY issue DESC` returns them. */
  function SortedDesc(s: set<string>): (r: seq<string>)
    ensures |r| == |s|
    ensures forall k :: k in s <==> k in r
    ensures Descending(r)
    decreases |s|
  {
    if s == {} then []
    else
      var m := Greatest(s);
      var rest := SortedDesc(s - {m});
      assert forall j :: 0 <= j < |rest| ==> rest[j] in s - {m};
      [m] + rest
  }
}
