/**
 * The recent-queries list: most recent first, no repeats, at most ten
 * entries (`handleSendMessage`, components/ChatInterface.tsx).
 */
module History {
  const Capacity: nat := 10

  predicate Distinct(h: seq<string>) {
    forall i, j :: 0 <= i < j < |h| ==> h[i] != h[j]
  }

  /** `h.filter((q) => q !== t)`: the entries other than `t`, in their order. */
  function Without(h: seq<string>, t: string): (r: seq<string>)
    ensures |r| <= |h| && t !in r
    ensures forall x :: x in r <==> x in h && x != t
    ensures t !in h ==> r == h
  {
    if h == [] then []
    else if h[0] == t then Without(h[1..], t)
    else [h[0]] + Without(h[1..], t)
  }

  /** `[t, ...h.filter((q) => q !== t)].slice(0, 10)` */
  function Record(h: seq<string>, t: string): (r: seq<string>)
    ensures 1 <= |r| <= Capacity && r[0] == t
    ensures forall x :: x in r ==> x == t || x in h
  {
    var w := Without(h, t);
    ([t] + w)[..if 1 + |w| < Capacity then 1 + |w| else Capacity]
  }

  lemma {:induction false} WithoutKeepsDistinct(h: seq<string>, t: string)
    requires Distinct(h)
    ensures Distinct(Without(h, t))
  {
    if h != [] {
      assert Distinct(h[1..]) by {
        forall i, j | 0 <= i < j < |h[1..]| ensures h[1..][i] != h[1..][j] {
          assert h[1..][i] == h[i + 1] && h[1..][j] == h[j + 1];
        }
      }
      WithoutKeepsDistinct(h[1..], t);
      if h[0] != t {
        assert h[0] !in h[1..];
        assert h[0] !in Without(h[1..], t);
      }
    }
  }

  /** Without repeats, filtering `t` out removes exactly one entry if `t` is there. */
  lemma {:induction false} WithoutLength(h: seq<string>, t: string)
    requires Distinct(h)
    ensures |Without(h, t)| == if t in h then |h| - 1 else |h|
  {
    if h != [] {
      assert Distinct(h[1..]) by {
        forall i, j | 0 <= i < j < |h[1..]| ensures h[1..][i] != h[1..][j] {
          assert h[1..][i] == h[i + 1] && h[1..][j] == h[j + 1];
        }
      }
      WithoutLength(h[1..], t);
      if h[0] == t {
        assert t !in h[1..];
      } else {
        assert t in h <==> t in h[1..];
      }
    }
  }

  /** A history without repeats stays without repeats. */
  lemma RecordKeepsDistinct(h: seq<string>, t: string)
    requires Distinct(h)
    ensures Distinct(Record(h, t))
  {
    var w := Without(h, t);
    WithoutKeepsDistinct(h, t);
    var full := [t] + w;
    assert Distinct(full) by {
      forall i, j | 0 <= i < j < |full| ensures full[i] != full[j] {
        if i == 0 {
          assert full[j] == w[j - 1];
        } else {
          assert full[i] == w[i - 1] && full[j] == w[j - 1];
        }
      }
    }
  }

  /** Below capacity nothing is dropped: the entries are `t` and the old ones. */
  lemma RecordBelowCapacity(h: seq<string>, t: string)
    requires |h| < Capacity
    ensures forall x :: x in Record(h, t) <==> x == t || x in h
  {
    var w := Without(h, t);
    assert Record(h, t) == [t] + w;
  }

  /** Re-running a query already in a repeat-free history keeps its length and its set of entries. */
  lemma RecordExisting(h: seq<string>, t: string)
    requires Distinct(h) && |h| <= Capacity && t in h
    ensures |Record(h, t)| == |h|
    ensures forall x :: x in Record(h, t) <==> x in h
  {
    WithoutLength(h, t);
    var w := Without(h, t);
    assert Record(h, t) == [t] + w;
  }

  /** The filter keeps order and multiplicity: it works entry by entry. */
  lemma {:induction false} WithoutAppend(a: seq<string>, b: seq<string>, t: string)
    ensures Without(a + b, t) == Without(a, t) + Without(b, t)
  {
    if a == [] {
      assert a + b == b;
    } else {
      assert (a + b)[0] == a[0];
      assert (a + b)[1..] == a[1..] + b;
      WithoutAppend(a[1..], b, t);
    }
  }

  /** At capacity a new query pushes out the oldest entry; the others keep their order. */
  lemma RecordAtCapacity(h: seq<string>, t: string)
    requires |h| == Capacity && t !in h
    ensures Record(h, t) == [t] + h[..Capacity - 1]
  {
  }

  /** Re-running the query at index `k` moves it to the front and keeps the others in order. */
  lemma RecordMovesToFront(h: seq<string>, k: nat)
    requires Distinct(h) && |h| <= Capacity && k < |h|
    ensures Record(h, h[k]) == [h[k]] + h[..k] + h[k + 1..]
  {
    var t := h[k];
    assert h == h[..k] + [t] + h[k + 1..];
    assert t !in h[..k] && t !in h[k + 1..];
    WithoutAppend(h[..k] + [t], h[k + 1..], t);
    WithoutAppend(h[..k], [t], t);
    assert Without([t], t) == [];
    WithoutLength(h, t);
  }

  /** Recording the same query twice is recording it once. */
  lemma RecordIdempotent(h: seq<string>, t: string)
    ensures Record(Record(h, t), t) == Record(h, t)
  {
    var r := Record(h, t);
    var w := Without(h, t);
    assert r[1..] == w[..|r| - 1];
    assert t !in r[1..];
    assert Without(r, t) == r[1..];
  }
}
