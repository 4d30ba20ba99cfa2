// The lexicographic order Go compares strings in, and the sorted key list a map is
// walked in.
module Ordering {

  /** a <= b, comparing characters from the left; a proper prefix comes first. */
  predicate StrLe(a: string, b: string)
  {
    a == [] || (b != [] && (a[0] < b[0] || (a[0] == b[0] && StrLe(a[1..], b[1..]))))
  }

  lemma {:induction false} StrTotal(a: string, b: string)
    ensures StrLe(a, b) || StrLe(b, a)
  {
    if a != [] && b != [] {
      StrTotal(a[1..], b[1..]);
    }
  }

  lemma {:induction false} StrAntisymmetric(a: string, b: string)
    requires StrLe(a, b) && StrLe(b, a)
    ensures a == b
  {
    if a != [] {
      StrAntisymmetric(a[1..], b[1..]);
      assert a == [a[0]] + a[1..] && b == [b[0]] + b[1..];
    }
  }

  lemma {:induction false} StrTransitive(a: string, b: string, c: string)
    requires StrLe(a, b) && StrLe(b, c)
    ensures StrLe(a, c)
  {
    if a != [] && a[0] == b[0] && b[0] == c[0] {
      StrTransitive(a[1..], b[1..], c[1..]);
    }
  }

  predicate IsLeast(k: string, keys: set<string>) {
    k in keys && forall j :: j in keys ==> StrLe(k, j)
  }

  lemma {:induction false} LeastExists(keys: set<string>) returns (k: string)
    requires keys != {}
    ensures IsLeast(k, keys)
  {
    var x :| x in keys;
    if keys == {x} {
      k := x;
      StrTotal(x, x);
    } else {
      var rest := keys - {x};
      assert keys == rest + {x};
      var r := LeastExists(rest);
      StrTotal(x, r);
      StrTotal(x, x);
      if StrLe(x, r) {
        k := x;
        forall j | j in keys ensures StrLe(x, j) {
          if j != x { StrTransitive(x, r, j); }
        }
      } else {
        k := r;
      }
    }
  }

  lemma LeastUnique(keys: set<string>)
    requires keys != {}
    ensures exists k :: IsLeast(k, keys)
    ensures forall a, b :: IsLeast(a, keys) && IsLeast(b, keys) ==> a == b
  {
    var k := LeastExists(keys);
    forall a, b | IsLeast(a, keys) && IsLeast(b, keys) ensures a == b {
      StrAntisymmetric(a, b);
    }
  }

  /** The keys in ascending order, each once. */
  function SortedKeys(keys: set<string>): (r: seq<string>)
    ensures forall k :: k in r <==> k in keys
    ensures forall i, j :: 0 <= i < j < |r| ==> StrLe(r[i], r[j]) && r[i] != r[j]
  {
    if keys == {} then []
    else
      LeastUnique(keys);
      var k :| k in keys && IsLeast(k, keys);
      [k] + SortedKeys(keys - {k})
  }
}
