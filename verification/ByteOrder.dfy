/** The order of Go strings and of store keys, and the sorted list of a finite set of them. */
module ByteOrder {
  import opened GoTypes

  predicate Less(a: Str, b: Str)
  {
    b != [] && (a == [] || a[0] < b[0] || (a[0] == b[0] && Less(a[1..], b[1..])))
  }

  // After k common bytes a ends, or has the smaller byte.
  predicate DiffersAt(a: Str, b: Str, k: nat)
  {
    k <= |a| && k < |b| && a[..k] == b[..k] && (k == |a| || a[k] < b[k])
  }

  lemma FirstByte(a: Str, b: Str, k: nat)
    ensures DiffersAt(a, b, k) && k > 0 ==> a != [] && b != [] && a[0] == b[0]
  {
    if DiffersAt(a, b, k) && k > 0 {
      assert a[..k][0] == b[..k][0];
    }
  }

  // The order of Go strings: at the first difference the smaller byte, or the shorter string.
  lemma {:induction false} LessIff(a: Str, b: Str)
    ensures Less(a, b) <==> exists k :: DiffersAt(a, b, k)
  {
    if a != [] && b != [] && a[0] == b[0] {
      LessIff(a[1..], b[1..]);
      if k: nat :| DiffersAt(a[1..], b[1..], k) {
        assert a[..k + 1] == [a[0]] + a[1..][..k] && b[..k + 1] == [b[0]] + b[1..][..k];
        assert DiffersAt(a, b, k + 1);
      }
      if k: nat :| DiffersAt(a, b, k) {
        assert a[1..][..k - 1] == a[..k][1..] && b[1..][..k - 1] == b[..k][1..];
        assert DiffersAt(a[1..], b[1..], k - 1);
      }
    } else if b != [] && (a == [] || a[0] < b[0]) {
      assert DiffersAt(a, b, 0);
    } else if k: nat :| DiffersAt(a, b, k) {
      FirstByte(a, b, k);
    }
  }

  lemma {:induction false} LessTrans(a: Str, b: Str, c: Str)
    requires Less(a, b) && Less(b, c)
    ensures Less(a, c)
  {
    if a != [] && a[0] == b[0] && b[0] == c[0] {
      LessTrans(a[1..], b[1..], c[1..]);
    }
  }

  lemma {:induction false} LessTotal(a: Str, b: Str)
    ensures Less(a, b) || a == b || Less(b, a)
  {
    if a != [] && b != [] && a[0] == b[0] {
      LessTotal(a[1..], b[1..]);
      assert a == [a[0]] + a[1..] && b == [b[0]] + b[1..];
    }
  }

  lemma {:induction false} LessIrreflexive(a: Str)
    ensures !Less(a, a)
  {
    if a != [] {
      LessIrreflexive(a[1..]);
    }
  }

  predicate IsMin(m: Str, keys: set<Str>)
  {
    m in keys && forall k :: k in keys && k != m ==> Less(m, k)
  }

  lemma {:induction false} MinExists(keys: set<Str>)
    requires keys != {}
    ensures exists m :: IsMin(m, keys)
  {
    var x :| x in keys;
    var rest := keys - {x};
    assert forall k :: k in keys ==> k == x || k in rest;
    if rest == {} {
      assert IsMin(x, keys);
    } else {
      MinExists(rest);
      var m :| IsMin(m, rest);
      LessTotal(x, m);
      if Less(x, m) {
        forall k | k in keys && k != x ensures Less(x, k) {
          if k != m { LessTrans(x, m, k); }
        }
        assert IsMin(x, keys);
      } else {
        assert IsMin(m, keys);
      }
    }
  }

  lemma MinUnique(keys: set<Str>)
    ensures forall a, b :: IsMin(a, keys) && IsMin(b, keys) ==> a == b
  {
    forall a, b | IsMin(a, keys) && IsMin(b, keys) ensures a == b {
      if a != b {
        LessTrans(a, b, a);
        LessIrreflexive(a);
      }
    }
  }

  function Min(keys: set<Str>): (m: Str)
    requires keys != {}
    ensures IsMin(m, keys)
  {
    MinExists(keys);
    MinUnique(keys);
    var m :| m in keys && IsMin(m, keys);
    m
  }

  // Strictly increasing, so without repetitions.
  ghost predicate Sorted(s: seq<Str>)
  {
    forall i, j :: 0 <= i < j < |s| ==> Less(s[i], s[j])
  }

  function Elements(s: seq<Str>): set<Str>
  {
    set x | x in s
  }

  lemma ElementsCons(x: Str, s: seq<Str>)
    ensures Elements([x] + s) == {x} + Elements(s)
  {
    forall y ensures y in [x] + s <==> y == x || y in s {
      if y in s {
        var i :| 0 <= i < |s| && s[i] == y;
        assert ([x] + s)[i + 1] == y;
      }
    }
  }

  lemma ElementsAppend(s: seq<Str>, x: Str)
    ensures Elements(s + [x]) == Elements(s) + {x}
  {
    assert forall y :: y in s + [x] <==> y in s || y == x;
  }

  lemma ElementsConcat(a: seq<Str>, b: seq<Str>)
    ensures Elements(a + b) == Elements(a) + Elements(b)
  {
    assert forall y :: y in a + b <==> y in a || y in b;
  }

  ghost predicate Distinct(s: seq<Str>)
  {
    forall i, j :: 0 <= i < j < |s| ==> s[i] != s[j]
  }

  // sort.Strings on the keys of a map, and the order in which a store is walked.
  function SortedKeys(keys: set<Str>): (s: seq<Str>)
    ensures Sorted(s) && Elements(s) == keys
    decreases keys
  {
    if keys == {} then []
    else
      var m := Min(keys);
      var rest := SortedKeys(keys - {m});
      ElementsCons(m, rest);
      [m] + rest
  }

  lemma SortedDistinct(s: seq<Str>)
    requires Sorted(s)
    ensures Distinct(s)
  {
    forall i, j | 0 <= i < j < |s| ensures s[i] != s[j] {
      LessIrreflexive(s[i]);
    }
  }

  // There is only one sorted list of a given set of keys.
  lemma {:induction false} SortedUnique(a: seq<Str>, b: seq<Str>)
    requires Sorted(a) && Sorted(b) && Elements(a) == Elements(b)
    ensures a == b
    decreases |a|
  {
    assert a != [] ==> a[0] in Elements(a);
    assert b != [] ==> b[0] in Elements(b);
    if a != [] && b != [] {
      FirstIsMin(a);
      FirstIsMin(b);
      MinUnique(Elements(a));
      TailElements(a);
      TailElements(b);
      SortedUnique(a[1..], b[1..]);
      assert a == [a[0]] + a[1..] && b == [b[0]] + b[1..];
    }
  }

  lemma FirstIsMin(s: seq<Str>)
    requires Sorted(s) && s != []
    ensures IsMin(s[0], Elements(s))
  {
    assert s[0] in s;
  }

  lemma TailElements(s: seq<Str>)
    requires Sorted(s) && s != []
    ensures Elements(s[1..]) == Elements(s) - {s[0]}
  {
    SortedDistinct(s);
    assert forall x :: x in s[1..] ==> x in s;
    assert forall x :: x in s && x != s[0] ==> x in s[1..];
  }
}
