/** The list in which failed machines are reported: the first ten of their names, in order. */
module FailureReport {
  import opened Common
  import opened MachineNames

  const DETAIL_LIMIT: nat := 10

  /** Python's order of strings. */
  predicate Precedes(a: string, b: string)
    decreases a
  {
    b != "" && (a == "" || a[0] < b[0] || (a[0] == b[0] && Precedes(a[1..], b[1..])))
  }

  lemma {:induction false} PrecedesIsStrict(a: string)
    ensures !Precedes(a, a)
    decreases a
  {
    if a != "" {
      PrecedesIsStrict(a[1..]);
    }
  }

  lemma {:induction false} PrecedesTransitively(a: string, b: string, c: string)
    requires Precedes(a, b) && Precedes(b, c)
    ensures Precedes(a, c)
    decreases a
  {
    if a != "" && a[0] == b[0] == c[0] {
      PrecedesTransitively(a[1..], b[1..], c[1..]);
    }
  }

  lemma {:induction false} PrecedesOrFollows(a: string, b: string)
    ensures a == b || Precedes(a, b) || Precedes(b, a)
    decreases a
  {
    if a != "" && b != "" && a[0] == b[0] {
      PrecedesOrFollows(a[1..], b[1..]);
      assert a == [a[0]] + a[1..] && b == [b[0]] + b[1..];
    }
  }

  /** `a` and `b` agree up to `k`, where `a` ends or has the smaller character. */
  ghost predicate DifferAt(a: string, b: string, k: nat) {
    k <= |a| && k < |b| && a[..k] == b[..k] && (k == |a| || a[k] < b[k])
  }

  lemma {:induction false} PrecedesDiffers(a: string, b: string) returns (k: nat)
    requires Precedes(a, b)
    ensures DifferAt(a, b, k)
    decreases a
  {
    k := 0;
    if a != "" && a[0] == b[0] {
      var i := PrecedesDiffers(a[1..], b[1..]);
      k := i + 1;
      assert a[..k] == [a[0]] + a[1..][..i] && b[..k] == [b[0]] + b[1..][..i];
    }
  }

  lemma {:induction false} DiffersPrecedes(a: string, b: string, k: nat)
    requires DifferAt(a, b, k)
    ensures Precedes(a, b)
    decreases k
  {
    if k > 0 {
      assert a[0] == a[..k][0] == b[..k][0] == b[0];
      assert a[1..][..k - 1] == a[..k][1..] && b[1..][..k - 1] == b[..k][1..];
      DiffersPrecedes(a[1..], b[1..], k - 1);
    }
  }

  /** The first difference decides, and a proper prefix comes first. */
  lemma PrecedesIff(a: string, b: string)
    ensures Precedes(a, b) <==> exists k: nat :: DifferAt(a, b, k)
  {
    if Precedes(a, b) {
      var k := PrecedesDiffers(a, b);
    }
    forall k: nat | DifferAt(a, b, k) ensures Precedes(a, b) {
      DiffersPrecedes(a, b, k);
    }
  }

  predicate Before(x: MachineName, y: MachineName) {
    Precedes(x.text, y.text)
  }

  /** `m` comes first in `s`. */
  ghost predicate IsLeast(m: MachineName, s: set<MachineName>) {
    m in s && forall x :: x in s && x != m ==> Before(m, x)
  }

  lemma {:induction false} LeastExists(s: set<MachineName>)
    requires s != {}
    ensures exists m :: IsLeast(m, s)
  {
    var x :| x in s;
    if s == {x} {
      assert IsLeast(x, s);
    } else {
      LeastExists(s - {x});
      var n :| IsLeast(n, s - {x});
      PrecedesOrFollows(x.text, n.text);
      if Before(x, n) {
        forall y | y in s && y != x ensures Before(x, y) {
          assert y in s - {x};
          if y != n {
            assert Before(n, y);
            PrecedesTransitively(x.text, n.text, y.text);
          }
        }
        assert IsLeast(x, s);
      } else {
        assert IsLeast(n, s);
      }
    }
  }

  lemma LeastIsUnique(m: MachineName, n: MachineName, s: set<MachineName>)
    requires IsLeast(m, s) && IsLeast(n, s)
    ensures m == n
  {
    if m != n {
      PrecedesTransitively(m.text, n.text, m.text);
      PrecedesIsStrict(m.text);
    }
  }

  /** The first `n` names of `s`, or all of them. */
  ghost function FirstNames(s: set<MachineName>, n: nat): seq<MachineName>
    decreases n
  {
    if n == 0 || s == {} then []
    else
      LeastExists(s);
      var m :| IsLeast(m, s);
      [m] + FirstNames(s - {m}, n - 1)
  }

  /** What is reported of the failed machines `s`. */
  ghost function ReportFor(s: set<MachineName>): seq<MachineName> {
    FirstNames(s, DETAIL_LIMIT)
  }

  /** `r` lists the first names of `s`, as many as there is room for. */
  ghost predicate IsReport(r: seq<MachineName>, s: set<MachineName>) {
    && |r| == Min(10, |s|)
    && (forall x :: x in r ==> x in s)
    && (forall i, j :: 0 <= i < j < |r| ==> Before(r[i], r[j]))
    && (forall x, y :: x in s && x !in r && y in r ==> Before(y, x))
  }

  lemma {:induction false} FirstNamesAre(s: set<MachineName>, n: nat)
    ensures var r := FirstNames(s, n);
      && |r| == Min(n, |s|)
      && (forall x :: x in r ==> x in s)
      && (forall i, j :: 0 <= i < j < |r| ==> Before(r[i], r[j]))
      && (forall x, y :: x in s && x !in r && y in r ==> Before(y, x))
    decreases n
  {
    if n > 0 && s != {} {
      var r := FirstNames(s, n);
      var m := r[0];
      var rest := s - {m};
      assert IsLeast(m, s) && r == [m] + FirstNames(rest, n - 1);
      FirstNamesAre(rest, n - 1);
      forall i, j | 0 <= i < j < |r| ensures Before(r[i], r[j]) {
        assert r[j] == FirstNames(rest, n - 1)[j - 1];
        assert r[j] in FirstNames(rest, n - 1);
        if i > 0 {
          assert r[i] == FirstNames(rest, n - 1)[i - 1];
        }
      }
    }
  }

  /** The report is sorted and complete: ten names, or all of them, and none of the others comes before. */
  lemma ReportIsSorted(s: set<MachineName>)
    ensures IsReport(ReportFor(s), s)
  {
    FirstNamesAre(s, DETAIL_LIMIT);
  }

  /** There is only one such list, so nothing else could have been reported. */
  lemma ReportIsUnique(r: seq<MachineName>, q: seq<MachineName>, s: set<MachineName>)
    requires IsReport(r, s) && IsReport(q, s)
    ensures r == q
  {
    SameStart(r, q, s, |r|);
    assert r[..|r|] == r && q[..|q|] == q;
  }

  lemma {:induction false} SameStart(r: seq<MachineName>, q: seq<MachineName>, s: set<MachineName>, i: nat)
    requires IsReport(r, s) && IsReport(q, s) && i <= |r|
    ensures r[..i] == q[..i]
  {
    if i > 0 {
      SameStart(r, q, s, i - 1);
      NotBefore(r, q, s, i - 1);
      NotBefore(q, r, s, i - 1);
      PrecedesOrFollows(r[i - 1].text, q[i - 1].text);
      assert r[..i] == r[..i - 1] + [r[i - 1]] && q[..i] == q[..i - 1] + [q[i - 1]];
    }
  }

  lemma NotBefore(r: seq<MachineName>, q: seq<MachineName>, s: set<MachineName>, i: nat)
    requires IsReport(r, s) && IsReport(q, s) && i < |r| && r[..i] == q[..i]
    ensures !Before(r[i], q[i])
  {
    var x := r[i];
    if Before(x, q[i]) {
      PrecedesIsStrict(x.text);
      if x in q {
        var j :| 0 <= j < |q| && q[j] == x;
        if j > i {
          PrecedesTransitively(x.text, q[i].text, q[j].text);
        }
      } else {
        assert Before(q[i], x);
        PrecedesTransitively(x.text, q[i].text, x.text);
      }
    }
  }

  lemma ReportIsEmptyIff(s: set<MachineName>)
    ensures ReportFor(s) == [] <==> s == {}
  {
  }

  /** The least name. */
  method Least(s: set<MachineName>) returns (m: MachineName)
    requires s != {}
    ensures IsLeast(m, s)
  {
    m :| m in s;
    var todo := s - {m};
    while todo != {}
      invariant m in s && m !in todo && todo <= s
      invariant forall x :: x in s && x !in todo && x != m ==> Before(m, x)
      decreases |todo|
    {
      var x :| x in todo;
      PrecedesOrFollows(m.text, x.text);
      if Before(x, m) {
        FollowsToo(s, todo, m, x);
        m := x;
      }
      todo := todo - {x};
    }
  }

  lemma FollowsToo(s: set<MachineName>, todo: set<MachineName>, m: MachineName, x: MachineName)
    requires Before(x, m) && forall y :: y in s && y !in todo && y != m ==> Before(m, y)
    ensures forall y :: y in s && y !in todo ==> Before(x, y)
  {
    forall y | y in s && y !in todo ensures Before(x, y) {
      if y != m {
        PrecedesTransitively(x.text, m.text, y.text);
      }
    }
  }

  lemma FirstNamesUnfold(s: set<MachineName>, n: nat, m: MachineName)
    requires n > 0 && IsLeast(m, s)
    ensures FirstNames(s, n) == [m] + FirstNames(s - {m}, n - 1)
  {
    var r := FirstNames(s, n);
    assert IsLeast(r[0], s);
    LeastIsUnique(m, r[0], s);
  }

  /** `sorted(failed_names)[:_MACHINE_FAILURE_DETAIL_LIMIT]`. */
  method Report(s: set<MachineName>) returns (r: seq<MachineName>)
    ensures r == ReportFor(s)
  {
    r := [];
    var rest := s;
    while |r| < DETAIL_LIMIT && rest != {}
      invariant |r| <= DETAIL_LIMIT && ReportFor(s) == r + FirstNames(rest, DETAIL_LIMIT - |r|)
      decreases DETAIL_LIMIT - |r|
    {
      var m := Least(rest);
      FirstNamesUnfold(rest, DETAIL_LIMIT - |r|, m);
      Associate(r, [m], FirstNames(rest - {m}, DETAIL_LIMIT - |r| - 1));
      r, rest := r + [m], rest - {m};
    }
    assert r + [] == r;
  }
}
