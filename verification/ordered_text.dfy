/** Text in code point order, which is the byte order of its UTF-8 form, and sets of text listed in that order. */
module OrderedText {

  predicate Below(a: string, b: string) {
    b != "" && (a == "" || a[0] < b[0] || (a[0] == b[0] && Below(a[1..], b[1..])))
  }

  /** `a` and `b` agree up to `k`, where `a` ends or has the smaller character. */
  ghost predicate PartsAt(a: string, b: string, k: int) {
    0 <= k <= |a| && k < |b| && a[..k] == b[..k] && (k < |a| ==> a[k] < b[k])
  }

  lemma {:induction false} BelowExactly(a: string, b: string)
    ensures Below(a, b) <==> exists k :: PartsAt(a, b, k)
  {
    if Below(a, b) {
      if a == "" || a[0] < b[0] {
        assert PartsAt(a, b, 0);
      } else {
        BelowExactly(a[1..], b[1..]);
        var k :| PartsAt(a[1..], b[1..], k);
        assert a[..k + 1] == [a[0]] + a[1..][..k] && b[..k + 1] == [b[0]] + b[1..][..k];
        assert PartsAt(a, b, k + 1);
      }
    }
    if k :| PartsAt(a, b, k) {
      if k > 0 {
        assert a[0] == a[..k][0] == b[..k][0] == b[0];
        assert a[1..][..k - 1] == a[..k][1..] && b[1..][..k - 1] == b[..k][1..];
        assert PartsAt(a[1..], b[1..], k - 1);
        BelowExactly(a[1..], b[1..]);
      }
    }
  }

  lemma {:induction false} NotBelowItself(a: string)
    ensures !Below(a, a)
  {
    if a != "" {
      NotBelowItself(a[1..]);
    }
  }

  lemma {:induction false} BelowTransitive(a: string, b: string, c: string)
    requires Below(a, b) && Below(b, c)
    ensures Below(a, c)
  {
    if a != "" && a[0] == b[0] == c[0] {
      BelowTransitive(a[1..], b[1..], c[1..]);
    }
  }

  lemma {:induction false} BelowTotal(a: string, b: string)
    ensures a == b || Below(a, b) || Below(b, a)
  {
    if a != "" && b != "" && a[0] == b[0] {
      BelowTotal(a[1..], b[1..]);
      assert a == [a[0]] + a[1..] && b == [b[0]] + b[1..];
    }
  }

  predicate Ascending(q: seq<string>) {
    forall i, j | 0 <= i < j < |q| :: Below(q[i], q[j])
  }

  function Members(q: seq<string>): set<string> {
    set x | x in q
  }

  predicate Least(x: string, s: set<string>) {
    x in s && forall y | y in s :: y == x || Below(x, y)
  }

  lemma {:induction false} LeastExists(s: set<string>)
    requires s != {}
    ensures exists x :: Least(x, s)
  {
    hide Below;
    var a :| a in s;
    var rest := s - {a};
    if rest == {} {
      assert s == {a};
      assert Least(a, s);
    } else {
      LeastExists(rest);
      var b :| Least(b, rest);
      BelowTotal(a, b);
      if Below(b, a) {
        assert Least(b, s);
      } else {
        forall y | y in s ensures y == a || Below(a, y) {
          if y != a && y != b {
            BelowTransitive(a, b, y);
          }
        }
        assert Least(a, s);
      }
    }
  }

  /** The members of a set, least first. */
  ghost function Ordered(s: set<string>): seq<string> {
    if s == {} then []
    else
      LeastExists(s);
      var x :| Least(x, s);
      [x] + Ordered(s - {x})
  }

  lemma OrderedHead(s: set<string>) returns (x: string)
    requires s != {}
    ensures Least(x, s) && Ordered(s) == [x] + Ordered(s - {x})
  {
    hide Below, Least;
    LeastExists(s);
    x := Ordered(s)[0];
  }

  lemma {:induction false} OrderedMembers(s: set<string>)
    ensures Ascending(Ordered(s)) && Members(Ordered(s)) == s && |Ordered(s)| == |s|
  {
    hide Below, Ordered;
    if s == {} {
      NothingOrdered();
    } else {
      var x := OrderedHead(s);
      var rest := Ordered(s - {x});
      OrderedMembers(s - {x});
      forall j | 0 <= j < |rest| ensures Below(x, rest[j]) {
        assert rest[j] in Members(rest);
      }
      assert Members([x] + rest) == {x} + Members(rest);
    }
  }

  lemma NothingOrdered()
    ensures Ordered({}) == [] && Members([]) == {}
  {
  }

  /** An ascending list of exactly the members is the ordered list. */
  lemma {:induction false} OrderedUnique(q: seq<string>)
    requires Ascending(q)
    ensures Ordered(Members(q)) == q
  {
    hide Below;
    if q != [] {
      var s := Members(q);
      assert q[0] in s;
      var x := OrderedHead(s);
      if x != q[0] {
        var i :| 0 <= i < |q| && q[i] == x;
        assert Below(q[0], q[i]);
        BelowTransitive(x, q[0], x);
        NotBelowItself(x);
      }
      OrderedUnique(q[1..]);
      assert q[0] !in q[1..] by {
        if q[0] in q[1..] {
          var i :| 0 <= i < |q| - 1 && q[1..][i] == q[0];
          assert Below(q[0], q[i + 1]);
          NotBelowItself(q[0]);
        }
      }
      assert s - {x} == Members(q[1..]);
    }
  }

  function Above(s: set<string>, bound: string): set<string> {
    set x | x in s && Below(bound, x)
  }

  /** What lies above the k-th listed member is the rest of the list. */
  lemma AboveIsRest(s: set<string>, k: nat)
    requires 0 < k <= |Ordered(s)|
    ensures Ordered(Above(s, Ordered(s)[k - 1])) == Ordered(s)[k..]
  {
    hide Below, Ordered;
    var q := Ordered(s);
    OrderedMembers(s);
    var above := Above(s, q[k - 1]);
    forall x ensures x in Members(q[k..]) <==> x in above {
      if x in above {
        assert x in Members(q);
        var i :| 0 <= i < |q| && q[i] == x;
        NotBelowItself(x);
        if i < k - 1 {
          BelowTransitive(x, q[k - 1], x);
        }
        assert q[k..][i - k] == x;
      }
    }
    assert Members(q[k..]) == above;
    OrderedUnique(q[k..]);
  }
}
