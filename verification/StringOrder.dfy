/** The order in which strings are sorted: by code point, a prefix first. */
module StringOrder {
  predicate Less(a: string, b: string) {
    if b == "" then false
    else if a == "" then true
    else if a[0] != b[0] then a[0] < b[0]
    else Less(a[1..], b[1..])
  }

  predicate AtMost(a: string, b: string) {
    a == b || Less(a, b)
  }

  lemma {:induction false} LessIsIrreflexive(a: string)
    ensures !Less(a, a)
  {
    if a != "" {
      LessIsIrreflexive(a[1..]);
    }
  }

  lemma {:induction false} LessIsTransitive(a: string, b: string, c: string)
    requires Less(a, b) && Less(b, c)
    ensures Less(a, c)
  {
    if a != "" && b != "" && c != "" && a[0] == b[0] == c[0] {
      LessIsTransitive(a[1..], b[1..], c[1..]);
    }
  }

  lemma {:induction false} LessIsTotal(a: string, b: string)
    ensures a == b || Less(a, b) || Less(b, a)
  {
    if a != "" && b != "" && a[0] == b[0] {
      LessIsTotal(a[1..], b[1..]);
      assert a == [a[0]] + a[1..] && b == [b[0]] + b[1..];
    }
  }

  lemma LessIsAsymmetric(a: string, b: string)
    requires Less(a, b)
    ensures !Less(b, a) && a != b
  {
    LessIsIrreflexive(a);
    if Less(b, a) {
      LessIsTransitive(a, b, a);
    }
  }

  ghost predicate IsLeast(xs: set<string>, m: string) {
    m in xs && forall x :: x in xs ==> AtMost(m, x)
  }

  lemma {:induction false} LeastExists(xs: set<string>)
    requires xs != {}
    ensures exists m :: IsLeast(xs, m)
  {
    var x :| x in xs;
    if xs == {x} {
      assert IsLeast(xs, x);
    } else {
      LeastExists(xs - {x});
      var m :| IsLeast(xs - {x}, m);
      LessIsTotal(x, m);
      if Less(x, m) {
        forall y | y in xs ensures AtMost(x, y) {
          if y != x && y != m {
            assert y in xs - {x} && AtMost(m, y);
            LessIsTransitive(x, m, y);
          }
        }
        assert IsLeast(xs, x);
      } else {
        assert IsLeast(xs, m);
      }
    }
  }

  lemma LeastIsUnique(xs: set<string>, m: string, n: string)
    requires IsLeast(xs, m) && IsLeast(xs, n)
    ensures m == n
  {
    if m != n {
      LessIsAsymmetric(m, n);
    }
  }

  ghost predicate Increasing(order: seq<string>) {
    forall i, j :: 0 <= i < j < |order| ==> Less(order[i], order[j])
  }

  /** The distinct strings of a set in increasing order. */
  method Sort(xs: set<string>) returns (order: seq<string>)
    ensures Increasing(order)
    ensures forall x :: x in order <==> x in xs
    ensures |order| == |xs|
  {
    order := [];
    var rest := xs;
    while rest != {}
      invariant rest <= xs && |order| + |rest| == |xs|
      invariant forall x :: x in xs <==> x in order || x in rest
      invariant Increasing(order)
      invariant forall x, y :: x in order && y in rest ==> Less(x, y)
      decreases |rest|
    {
      var m := Least(rest);
      order := order + [m];
      rest := rest - {m};
    }
  }

  method Least(xs: set<string>) returns (m: string)
    requires xs != {}
    ensures IsLeast(xs, m)
  {
    LeastExists(xs);
    m :| m in xs && forall x :: x in xs ==> AtMost(m, x);
  }
}
