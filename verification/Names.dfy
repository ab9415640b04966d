/** Names in the order the store keeps them. */
module Names {

  /** Code points compare as their UTF-8 bytes do. */
  predicate Below(a: string, b: string) {
    if b == "" then false
    else if a == "" then true
    else a[0] < b[0] || (a[0] == b[0] && Below(a[1..], b[1..]))
  }

  lemma {:induction false} Trichotomy(a: string, b: string)
    ensures Below(a, b) || Below(b, a) || a == b
    ensures !(Below(a, b) && Below(b, a)) && !Below(a, a)
  {
    if a != "" && b != "" && a[0] == b[0] {
      Trichotomy(a[1..], b[1..]);
      assert a == [a[0]] + a[1..] && b == [b[0]] + b[1..];
    }
    if a != "" {
      Trichotomy(a[1..], a[1..]);
    }
  }

  lemma {:induction false} Chains(a: string, b: string, c: string)
    requires Below(a, b) && Below(b, c)
    ensures Below(a, c)
  {
    if a != "" && a[0] == b[0] && b[0] == c[0] {
      Chains(a[1..], b[1..], c[1..]);
    }
  }

  predicate Least(names: set<string>, m: string) {
    m in names && forall n | n in names :: n == m || Below(m, n)
  }

  lemma {:induction false} LeastExists(names: set<string>)
    requires names != {}
    ensures exists m :: Least(names, m)
  {
    var some :| some in names;
    var rest := names - {some};
    assert names == rest + {some};
    if rest == {} {
      assert Least(names, some);
    } else {
      LeastExists(rest);
      var m :| Least(rest, m);
      Trichotomy(some, m);
      if Below(some, m) {
        forall n | n in names
          ensures n == some || Below(some, n)
        {
          if n != some && n != m { Chains(some, m, n); }
        }
        assert Least(names, some);
      } else {
        assert Least(names, m);
      }
    }
  }

  lemma LeastIsUnique(names: set<string>, a: string, b: string)
    requires Least(names, a) && Least(names, b)
    ensures a == b
  {
    Trichotomy(a, b);
  }

  function First(names: set<string>): (m: string)
    requires names != {}
    ensures Least(names, m)
  {
    LeastExists(names);
    assert forall a, b | Least(names, a) && Least(names, b) :: a == b by {
      forall a, b | Least(names, a) && Least(names, b)
        ensures a == b
      {
        LeastIsUnique(names, a, b);
      }
    }
    var m :| Least(names, m);
    m
  }

  /** All names, each once, in order. */
  function InOrder(names: set<string>): (s: seq<string>)
    ensures forall n :: n in s <==> n in names
    ensures forall i, j | 0 <= i < j < |s| :: Below(s[i], s[j])
    decreases |names|
  {
    if names == {} then []
    else
      var m := First(names);
      var rest := InOrder(names - {m});
      assert forall n | n in rest :: Below(m, n);
      [m] + rest
  }
}
