/** Small shared vocabulary: optional values, results, rounding and the ordering of strings. */
module Common {

  datatype Option<+T> = None | Some(value: T)

  datatype Result<+T, +E> = Ok(value: T) | Err(error: E)

  function Min(a: int, b: int): int { if a <= b then a else b }

  function Max(a: int, b: int): int { if a >= b then a else b }

  function RMin(a: real, b: real): real { if a <= b then a else b }

  function RMax(a: real, b: real): real { if a >= b then a else b }

  /** The least integer not below `x`. */
  function Ceil(x: real): (r: int)
    ensures x <= r as real < x + 1.0
  {
    -((-x).Floor)
  }

  /** Strings compare by code point, first difference decides, a proper prefix is smaller. */
  predicate StrLess(a: string, b: string)
  {
    if |b| == 0 then false
    else if |a| == 0 then true
    else a[0] < b[0] || (a[0] == b[0] && StrLess(a[1..], b[1..]))
  }

  lemma {:induction false} StrLessIrreflexive(a: string)
    ensures !StrLess(a, a)
  {
    if |a| > 0 {
      StrLessIrreflexive(a[1..]);
    }
  }

  lemma {:induction false} StrLessTransitive(a: string, b: string, c: string)
    requires StrLess(a, b) && StrLess(b, c)
    ensures StrLess(a, c)
  {
    if |a| > 0 && a[0] == b[0] && b[0] == c[0] {
      StrLessTransitive(a[1..], b[1..], c[1..]);
    }
  }

  lemma {:induction false} StrLessTotal(a: string, b: string)
    ensures a == b || StrLess(a, b) || StrLess(b, a)
  {
    if |a| > 0 && |b| > 0 && a[0] == b[0] {
      StrLessTotal(a[1..], b[1..]);
      assert a == [a[0]] + a[1..];
      assert b == [b[0]] + b[1..];
    }
  }

  /** The strings agree up to `i`, where `a` ends or has the smaller character. */
  predicate DifferAt(a: string, b: string, i: int)
  {
    0 <= i <= |a| && i < |b| && a[..i] == b[..i] && (i == |a| || a[i] < b[i])
  }

  lemma {:induction false} StrLessExactlyWhen(a: string, b: string)
    ensures StrLess(a, b) <==> exists i :: DifferAt(a, b, i)
  {
    if |b| > 0 {
      if |a| == 0 || a[0] < b[0] {
        assert DifferAt(a, b, 0);
      } else if a[0] == b[0] {
        StrLessExactlyWhen(a[1..], b[1..]);
        if i :| DifferAt(a[1..], b[1..], i) {
          assert a == [a[0]] + a[1..] && b == [b[0]] + b[1..];
          assert a[..i + 1] == [a[0]] + a[1..][..i] && b[..i + 1] == [b[0]] + b[1..][..i];
          assert DifferAt(a, b, i + 1);
        }
        if i :| DifferAt(a, b, i) {
          assert a[1..][..i - 1] == a[..i][1..] && b[1..][..i - 1] == b[..i][1..];
          assert DifferAt(a[1..], b[1..], i - 1);
        }
      } else {
        forall i | 0 < i <= |a| && i <= |b| ensures a[..i] != b[..i] { assert a[..i][0] != b[..i][0]; }
      }
    }
  }

  /** An injective image of a finite set has the size of the set. */
  lemma {:induction false} InjectiveImageSize<A, B>(s: set<A>, f: A -> B, image: set<B>)
    requires forall x, y :: x in s && y in s && f(x) == f(y) ==> x == y
    requires image == set x | x in s :: f(x)
    ensures |image| == |s|
    decreases |s|
  {
    if s != {} {
      var x :| x in s;
      var rest := s - {x};
      var smaller := set y | y in rest :: f(y);
      assert image == smaller + {f(x)};
      assert f(x) !in smaller;
      InjectiveImageSize(rest, f, smaller);
    } else {
      assert image == {};
    }
  }

  predicate NoRepeats<T(==)>(s: seq<T>)
  {
    forall i, j :: 0 <= i < j < |s| ==> s[i] != s[j]
  }

  function Elements<T(==)>(s: seq<T>): set<T>
  {
    set x | x in s
  }

  /** A list has as many distinct elements as places exactly when it repeats nothing. */
  lemma {:induction false} RepeatsShrink<T>(s: seq<T>)
    ensures |Elements(s)| <= |s|
    ensures |Elements(s)| == |s| <==> NoRepeats(s)
  {
    if s != [] {
      var m := |s| - 1;
      var front := Elements(s[..m]);
      RepeatsShrink(s[..m]);
      assert Elements(s) == front + {s[m]};
      if s[m] in front {
        var i :| 0 <= i < m && s[..m][i] == s[m];
        assert !NoRepeats(s);
      } else {
        forall i | 0 <= i < m ensures s[i] != s[m] {
          assert s[..m][i] in front;
        }
        assert NoRepeats(s) <==> NoRepeats(s[..m]);
      }
    }
  }
}
