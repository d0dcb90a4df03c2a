/** The sample window of the temperature chart as values: what the chart's three
    data effects do to one of its parallel arrays (values or time labels), and
    what follows from it about order, length and eviction. */
module SampleWindow {
  import opened Units

  function Min(a: int, b: int): int { if a <= b then a else b }

  function Max(a: int, b: int): int { if a <= b then b else a }

  /** `Array.prototype.shift` on the array: the first element goes, and an empty
      array stays empty. */
  function Shift<T>(s: seq<T>): (r: seq<T>)
    ensures s == [] ==> r == []
    ensures s != [] ==> [s[0]] + r == s
  {
    if |s| == 0 then s else s[1..]
  }

  /** `Array.prototype.slice(k)` for a start `k >= 0`: a start past the end gives
      the empty array. */
  function SliceFrom<T>(s: seq<T>, k: nat): (r: seq<T>)
    ensures |r| == Max(|s| - k, 0)
    ensures r == s[|s| - |r|..]
  {
    if k >= |s| then [] else s[k..]
  }

  /** The newest `k` elements of `s` (all of them when there are fewer), in order. */
  function Newest<T>(s: seq<T>, k: nat): seq<T>
  {
    s[|s| - Min(|s|, k)..]
  }

  /** One append as the chart does it: when `length - 3 > maxPoints` the oldest
      element is shifted out, then the new element is pushed. */
  function AppendWindow<T>(s: seq<T>, x: T, maxPoints: int): (r: seq<T>)
    ensures |r| > 0 && r[|r| - 1] == x
    ensures |s| - 3 > maxPoints && |s| > 0 ==> |r| == |s| && r[..|r| - 1] == s[1..]
    ensures |s| - 3 <= maxPoints || |s| == 0 ==> |r| == |s| + 1 && r[..|r| - 1] == s
  {
    (if |s| - 3 > maxPoints then Shift(s) else s) + [x]
  }

  /** The longest window appends can keep for capacity `maxPoints`: `maxPoints + 4`,
      and at least the one element just pushed. */
  function WindowBound(maxPoints: int): nat
  {
    if maxPoints + 4 >= 1 then maxPoints + 4 else 1
  }

  /** A capacity change as the chart does it: `length - maxPoints` elements are
      sliced off the front when that difference is positive. */
  function Trimmed<T>(s: seq<T>, maxPoints: int): (r: seq<T>)
    ensures |r| == Min(|s|, Max(maxPoints, 0))
    ensures r == s[|s| - |r|..]
  {
    var chartDif := |s| - maxPoints;
    if chartDif > 0 then SliceFrom(s, chartDif) else s
  }

  /** A run of appends at a fixed capacity, oldest first. */
  function AppendAll<T>(s: seq<T>, xs: seq<T>, maxPoints: int): seq<T>
    decreases |xs|
  {
    if |xs| == 0 then s else AppendAll(AppendWindow(s, xs[0], maxPoints), xs[1..], maxPoints)
  }

  /** Element-wise conversion of every stored value into unit `to`. */
  function ConvertAll(s: seq<real>, to: Unit): (r: seq<real>)
    ensures |r| == |s|
    ensures forall i :: 0 <= i < |s| ==> r[i] == Convert(s[i], to)
  {
    if s == [] then [] else [Convert(s[0], to)] + ConvertAll(s[1..], to)
  }

  /** The parallel value and label arrays read as one sequence of samples. */
  function Zip<A, B>(s: seq<A>, t: seq<B>): (r: seq<(A, B)>)
    requires |s| == |t|
    ensures |r| == |s|
    ensures forall i :: 0 <= i < |r| ==> r[i].0 == s[i] && r[i].1 == t[i]
  {
    if s == [] then [] else [(s[0], t[0])] + Zip(s[1..], t[1..])
  }

  // ----- Appending -----

  /** An append never takes the window past its bound once it is within it. */
  lemma AppendBounded<T>(s: seq<T>, x: T, maxPoints: int)
    requires |s| <= WindowBound(maxPoints)
    ensures |AppendWindow(s, x, maxPoints)| <= WindowBound(maxPoints)
  {
  }

  /** `maxPoints + 4` alone is not a bound for capacities of -4 and below: one append
      to an empty window at capacity -4 leaves one element. */
  lemma AppendPastNegativeCapacity<T>(x: T)
    ensures |AppendWindow([], x, -4)| == 1 > -4 + 4
  {
  }

  /** Within its bound, one append keeps exactly the newest elements, in arrival order. */
  lemma AppendKeepsNewest<T>(s: seq<T>, x: T, maxPoints: int)
    requires |s| <= WindowBound(maxPoints)
    ensures AppendWindow(s, x, maxPoints) == Newest(s + [x], WindowBound(maxPoints))
  {
    var r := AppendWindow(s, x, maxPoints);
    if |s| - 3 > maxPoints && |s| > 0 {
      assert r == s[1..] + [x];
      assert (s + [x])[1..] == s[1..] + [x];
    } else {
      assert r == s + [x];
    }
  }

  /** The newest `k` of the newest `k` followed by more elements are the newest `k`
      of everything. */
  lemma NewestOfNewest<T>(a: seq<T>, b: seq<T>, k: nat)
    ensures Newest(Newest(a, k) + b, k) == Newest(a + b, k)
  {
    var d := |a| - Min(|a|, k);
    assert Newest(a, k) + b == (a + b)[d..];
    var c := (a + b)[d..];
    assert c[|c| - Min(|c|, k)..] == (a + b)[d + |c| - Min(|c|, k)..];
  }

  /** One append followed by the newest `k` of later elements: the same as taking
      the newest `k` of everything. */
  lemma AppendThenNewest<T>(s: seq<T>, x: T, rest: seq<T>, maxPoints: int)
    requires |s| <= WindowBound(maxPoints)
    ensures Newest(AppendWindow(s, x, maxPoints) + rest, WindowBound(maxPoints))
         == Newest(s + ([x] + rest), WindowBound(maxPoints))
  {
    var k := WindowBound(maxPoints);
    AppendKeepsNewest(s, x, maxPoints);
    NewestOfNewest(s + [x], rest, k);
    assert s + [x] + rest == s + ([x] + rest);
  }

  /** FIFO eviction over any run of appends at a fixed capacity: the window always
      holds the newest `WindowBound(maxPoints)` elements received, in arrival order. */
  lemma {:induction false} AppendAllKeepsNewest<T>(s: seq<T>, xs: seq<T>, maxPoints: int)
    requires |s| <= WindowBound(maxPoints)
    ensures AppendAll(s, xs, maxPoints) == Newest(s + xs, WindowBound(maxPoints))
    decreases |xs|
  {
    if |xs| == 0 {
      assert s + xs == s;
    } else {
      AppendBounded(s, xs[0], maxPoints);
      AppendAllKeepsNewest(AppendWindow(s, xs[0], maxPoints), xs[1..], maxPoints);
      AppendThenNewest(s, xs[0], xs[1..], maxPoints);
      assert [xs[0]] + xs[1..] == xs;
    }
  }

  // ----- Capacity change -----

  /** Raising the capacity to at least the window's length evicts nothing. */
  lemma TrimmedKeepsShortWindow<T>(s: seq<T>, maxPoints: int)
    requires |s| <= maxPoints
    ensures Trimmed(s, maxPoints) == s
  {
  }

  /** Example: shrinking a five-sample window to capacity 2 leaves its last two
      samples. */
  lemma TrimmedShrinkExample()
    ensures Trimmed([1, 2, 3, 4, 5], 2) == [4, 5]
  {
  }

  /** At a capacity of 0 or more, raising the capacity by one does not keep a full
      window: a window of `maxPoints + 4` samples loses three of them. */
  lemma TrimmedAfterIncrement<T>(s: seq<T>, maxPoints: int)
    requires maxPoints >= 0 && |s| == maxPoints + 4
    ensures |Trimmed(s, maxPoints + 1)| == |s| - 3
  {
  }

  // ----- Conversion -----

  /** Converting every value into one unit and then into the other restores the
      window exactly. */
  lemma {:induction false} ConvertAllRoundTrip(s: seq<real>, to: Unit)
    ensures ConvertAll(ConvertAll(s, to), Opposite(to)) == s
  {
    var r := ConvertAll(ConvertAll(s, to), Opposite(to));
    forall i | 0 <= i < |s|
      ensures r[i] == s[i]
    {
      ConvertRoundTrip(s[i], to);
    }
  }

  /** Conversion is element-wise, so it commutes with an append: converting the
      window after the append equals appending the converted value to the
      converted window. */
  lemma ConvertAllAppend(s: seq<real>, x: real, maxPoints: int, to: Unit)
    ensures ConvertAll(AppendWindow(s, x, maxPoints), to)
         == AppendWindow(ConvertAll(s, to), Convert(x, to), maxPoints)
  {
    var kept := if |s| - 3 > maxPoints then Shift(s) else s;
    ConvertAllPush(kept, x, to);
    if |s| - 3 > maxPoints && |s| > 0 {
      ConvertAllSuffix(s, 1, to);
    }
  }

  /** Converting a window with one more value at the end is converting the window
      and then that value. */
  lemma ConvertAllPush(s: seq<real>, x: real, to: Unit)
    ensures ConvertAll(s + [x], to) == ConvertAll(s, to) + [Convert(x, to)]
  {
  }

  /** Converting the newest entries is taking the newest converted entries. */
  lemma ConvertAllSuffix(s: seq<real>, d: nat, to: Unit)
    requires d <= |s|
    ensures ConvertAll(s[d..], to) == ConvertAll(s, to)[d..]
  {
    var a := ConvertAll(s[d..], to);
    var b := ConvertAll(s, to)[d..];
    forall i | 0 <= i < |a| ensures a[i] == b[i] {
      assert b[i] == ConvertAll(s, to)[d + i];
    }
  }

  /** Conversion commutes with a capacity change. */
  lemma ConvertAllTrimmed(s: seq<real>, maxPoints: int, to: Unit)
    ensures ConvertAll(Trimmed(s, maxPoints), to) == Trimmed(ConvertAll(s, to), maxPoints)
  {
    var d := |s| - |Trimmed(s, maxPoints)|;
    assert Trimmed(s, maxPoints) == s[d..];
    assert Trimmed(ConvertAll(s, to), maxPoints) == ConvertAll(s, to)[d..];
    ConvertAllSuffix(s, d, to);
  }

  // ----- Values and labels in lockstep -----

  /** Appending a value and its label to two parallel arrays is appending one
      sample to the window of samples. */
  lemma ZipAppend<A, B>(s: seq<A>, t: seq<B>, x: A, y: B, maxPoints: int)
    requires |s| == |t|
    ensures |AppendWindow(s, x, maxPoints)| == |AppendWindow(t, y, maxPoints)|
    ensures Zip(AppendWindow(s, x, maxPoints), AppendWindow(t, y, maxPoints))
         == AppendWindow(Zip(s, t), (x, y), maxPoints)
  {
    var a := Zip(AppendWindow(s, x, maxPoints), AppendWindow(t, y, maxPoints));
    var b := AppendWindow(Zip(s, t), (x, y), maxPoints);
    assert |a| == |b|;
    forall i | 0 <= i < |a| ensures a[i] == b[i] {
      if i < |a| - 1 {
        if |s| - 3 > maxPoints && |s| > 0 {
          assert AppendWindow(s, x, maxPoints)[..|a| - 1][i] == s[1..][i];
          assert AppendWindow(t, y, maxPoints)[..|a| - 1][i] == t[1..][i];
          assert b[..|b| - 1][i] == Zip(s, t)[1..][i];
        } else {
          assert AppendWindow(s, x, maxPoints)[..|a| - 1][i] == s[i];
          assert AppendWindow(t, y, maxPoints)[..|a| - 1][i] == t[i];
          assert b[..|b| - 1][i] == Zip(s, t)[i];
        }
      }
    }
  }

  /** Dropping the same number of oldest entries from both arrays drops them from
      the window of samples. */
  lemma ZipSuffix<A, B>(s: seq<A>, t: seq<B>, d: nat)
    requires |s| == |t| && d <= |s|
    ensures Zip(s[d..], t[d..]) == Zip(s, t)[d..]
  {
    var a := Zip(s[d..], t[d..]);
    var b := Zip(s, t)[d..];
    forall i | 0 <= i < |a| ensures a[i] == b[i] {
      assert b[i] == Zip(s, t)[d + i];
    }
  }

  /** Trimming the two parallel arrays is trimming the window of samples. */
  lemma ZipTrimmed<A, B>(s: seq<A>, t: seq<B>, maxPoints: int)
    requires |s| == |t|
    ensures |Trimmed(s, maxPoints)| == |Trimmed(t, maxPoints)|
    ensures Zip(Trimmed(s, maxPoints), Trimmed(t, maxPoints)) == Trimmed(Zip(s, t), maxPoints)
  {
    var d := |s| - |Trimmed(s, maxPoints)|;
    assert Trimmed(s, maxPoints) == s[d..];
    assert Trimmed(t, maxPoints) == t[d..];
    assert Trimmed(Zip(s, t), maxPoints) == Zip(s, t)[d..];
    ZipSuffix(s, t, d);
  }
}
