/** The order in which file paths are listed. */
module PathOrder {
  predicate LexLe(a: string, b: string) {
    a == "" || (b != "" && (a[0] < b[0] || (a[0] == b[0] && LexLe(a[1..], b[1..]))))
  }

  lemma LexTotal(a: string, b: string)
    ensures LexLe(a, b) || LexLe(b, a)
  {
  }

  lemma LexTransitive(a: string, b: string, c: string)
    requires LexLe(a, b) && LexLe(b, c)
    ensures LexLe(a, c)
  {
  }

  lemma {:induction false} LexAntisymmetric(a: string, b: string)
    requires LexLe(a, b) && LexLe(b, a)
    ensures a == b
  {
    if a != "" {
      LexAntisymmetric(a[1..], b[1..]);
      assert a == [a[0]] + a[1..] && b == [b[0]] + b[1..];
    }
  }

  ghost predicate IsLeast(f: string, s: set<string>) {
    f in s && forall g :: g in s ==> LexLe(f, g)
  }

  lemma {:induction false} LeastExists(s: set<string>)
    requires s != {}
    ensures exists f :: IsLeast(f, s)
    decreases s
  {
    var x :| x in s;
    LexTotal(x, x);
    if s == {x} {
      assert IsLeast(x, s);
    } else {
      var rest := s - {x};
      LeastExists(rest);
      var y :| IsLeast(y, rest);
      LexTotal(x, y);
      var f := if LexLe(x, y) then x else y;
      forall g | g in s
        ensures LexLe(f, g)
      {
        if g != x && LexLe(x, y) {
          LexTransitive(x, y, g);
        }
      }
      assert IsLeast(f, s);
    }
  }

  predicate StrictlySorted(fs: seq<string>) {
    forall i, j :: 0 <= i < j < |fs| ==> LexLe(fs[i], fs[j]) && fs[i] != fs[j]
  }
}
