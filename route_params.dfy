/**
 * The parameter bag and the match record (src/recognizer/route_match.rs).
 * `Params` is a BTreeMap<String, String> in the source: a map whose iteration
 * order is ascending byte-wise lexicographic order of the keys. The map is a
 * Dafny `map`; the iteration order is `SortedKeys`.
 */
module RouteParams {

  type Params = map<string, string>

  /** Handlers are opaque: the model only needs to tell them apart. */
  type HandlerId = nat

  /** The outcome of a successful recognition: which handler, with which path parameters. */
  datatype RouteMatch = RouteMatch(handler: HandlerId, params: Params)

  /** `a` sorts at or before `b`: lexicographic order on bytes, a prefix first. */
  predicate Below(a: string, b: string)
    decreases |a|
  {
    |a| == 0 || (|b| > 0 && (a[0] < b[0] || (a[0] == b[0] && Below(a[1..], b[1..]))))
  }

  lemma {:induction false} BelowTotal(a: string, b: string)
    ensures Below(a, b) || Below(b, a)
    decreases |a|
  {
    if |a| > 0 && |b| > 0 && a[0] == b[0] {
      BelowTotal(a[1..], b[1..]);
    }
  }

  lemma {:induction false} BelowAntisymmetric(a: string, b: string)
    requires Below(a, b) && Below(b, a)
    ensures a == b
    decreases |a|
  {
    if |a| > 0 {
      BelowAntisymmetric(a[1..], b[1..]);
      assert a == [a[0]] + a[1..] && b == [b[0]] + b[1..];
    }
  }

  lemma {:induction false} BelowTransitive(a: string, b: string, c: string)
    requires Below(a, b) && Below(b, c)
    ensures Below(a, c)
    decreases |a|
  {
    if |a| > 0 && a[0] == b[0] && b[0] == c[0] {
      BelowTransitive(a[1..], b[1..], c[1..]);
    }
  }

  /** Every non-empty finite set of keys has a least element; this lemma names it. */
  lemma {:induction false} LeastWitness(keys: set<string>) returns (k: string)
    requires keys != {}
    ensures k in keys && forall y :: y in keys ==> Below(k, y)
    decreases |keys|
  {
    var x :| x in keys;
    var rest := keys - {x};
    if rest == {} {
      assert keys == {x};
      BelowTotal(x, x);
      k := x;
    } else {
      assert |rest| < |keys|;
      var m := LeastWitness(rest);
      BelowTotal(x, m);
      if Below(x, m) {
        forall y | y in keys ensures Below(x, y) {
          if y == x { BelowTotal(x, x); } else { BelowTransitive(x, m, y); }
        }
        k := x;
      } else {
        k := m;
      }
    }
  }

  lemma LeastExists(keys: set<string>)
    requires keys != {}
    ensures exists k :: k in keys && forall y :: y in keys ==> Below(k, y)
  {
    var k := LeastWitness(keys);
  }

  /** The first key a BTreeMap over `keys` yields. */
  function Least(keys: set<string>): (k: string)
    requires keys != {}
    ensures k in keys
    ensures forall y :: y in keys ==> Below(k, y)
  {
    LeastExists(keys);
    assert forall a, b :: a in keys && b in keys && Below(a, b) && Below(b, a) ==> a == b by {
      forall a, b | a in keys && b in keys && Below(a, b) && Below(b, a) ensures a == b {
        BelowAntisymmetric(a, b);
      }
    }
    var k :| k in keys && forall y :: y in keys ==> Below(k, y); k
  }

  /** Strictly ascending: each key sorts before every later one and none repeats. */
  predicate Ascending(ks: seq<string>)
  {
    forall i, j :: 0 <= i < j < |ks| ==> Below(ks[i], ks[j]) && ks[i] != ks[j]
  }

  /** The keys in the order a BTreeMap iterates them. */
  function SortedKeys(keys: set<string>): (ks: seq<string>)
    ensures |ks| == |keys|
    ensures forall k :: k in ks <==> k in keys
    ensures Ascending(ks)
    decreases |keys|
  {
    if keys == {} then []
    else
      var k := Least(keys);
      var rest := SortedKeys(keys - {k});
      assert |keys - {k}| == |keys| - 1;
      assert forall j :: 0 <= j < |rest| ==> Below(k, rest[j]) && k != rest[j] by {
        forall j | 0 <= j < |rest| ensures Below(k, rest[j]) && k != rest[j] {
          assert rest[j] in rest;
        }
      }
      AscendingCons(k, rest);
      [k] + rest
  }

  lemma AscendingCons(k: string, rest: seq<string>)
    requires Ascending(rest)
    requires forall j :: 0 <= j < |rest| ==> Below(k, rest[j]) && k != rest[j]
    ensures Ascending([k] + rest)
  {
    var ks := [k] + rest;
    forall i, j | 0 <= i < j < |ks| ensures Below(ks[i], ks[j]) && ks[i] != ks[j] {
      if i > 0 { assert ks[i] == rest[i - 1] && ks[j] == rest[j - 1]; }
    }
  }
}
