/**
 * The minimized-window stack (`stack_min`, src/js/winbox.js:14, 318-340):
 * the array operations the source applies to it and the layout
 * `update_min_stack` gives its members.
 */
module MinStack {
  import opened Geometry

  /** Height of a minimized window's bar. */
  const BarHeight: real := 35.0
  /** Widest a minimized window is laid out. */
  const SlotCap: real := 250.0

  predicate NoDup<T(==)>(s: seq<T>) {
    forall i, j :: 0 <= i < j < |s| ==> s[i] != s[j]
  }

  /** `s.indexOf(x)`: the first position holding `x`, or -1. */
  function IndexOf<T(==)>(s: seq<T>, x: T): (i: int)
    ensures -1 <= i < |s|
    ensures i >= 0 ==> s[i] == x && x !in s[..i]
    ensures i < 0 <==> x !in s
  {
    if s == [] then -1
    else if s[0] == x then 0
    else
      var i := IndexOf(s[1..], x);
      assert i >= 0 ==> s[..i + 1] == [s[0]] + s[1..][..i];
      assert s == [s[0]] + s[1..];
      if i < 0 then -1 else i + 1
  }

  /** `s.splice(start, 1)` as JavaScript performs it: a negative start counts from the end. */
  function SpliceOne<T>(s: seq<T>, start: int): (r: seq<T>)
    ensures 0 <= start < |s| ==> r == s[..start] + s[start + 1..]
    ensures -|s| <= start < 0 ==> r == s[..|s| + start] + s[|s| + start + 1..]
    ensures start < -|s| && s != [] ==> r == s[1..]
    ensures start >= |s| || s == [] ==> r == s
  {
    var k := if start < 0 then (if |s| + start < 0 then 0 else |s| + start) else start;
    if k < |s| then s[..k] + s[k + 1..] else s
  }

  /** `stack_min.splice(stack_min.indexOf(self), 1)`. */
  function Without<T(==)>(s: seq<T>, x: T): (r: seq<T>)
    ensures x in s ==> r == s[..IndexOf(s, x)] + s[IndexOf(s, x) + 1..] && |r| == |s| - 1
    ensures x !in s ==> r == (if s == [] then s else s[..|s| - 1])
  {
    SpliceOne(s, IndexOf(s, x))
  }

  /** Removing a member keeps the others, in order, once each. */
  lemma WithoutMember<T>(s: seq<T>, x: T)
    requires x in s && NoDup(s)
    ensures var i := IndexOf(s, x);
      Without(s, x) == s[..i] + s[i + 1..] && |Without(s, x)| == |s| - 1
    ensures NoDup(Without(s, x))
    ensures forall y :: y in Without(s, x) <==> y in s && y != x
  {
    var i := IndexOf(s, x);
    var r := Without(s, x);
    assert r == s[..i] + s[i + 1..];
    DropNoDup(s, i);
    DropMembers(s, i);
  }

  /** Dropping position `i` of a duplicate-free sequence keeps it duplicate-free. */
  lemma DropNoDup<T>(s: seq<T>, i: nat)
    requires i < |s| && NoDup(s)
    ensures NoDup(s[..i] + s[i + 1..])
  {
    var r := s[..i] + s[i + 1..];
    forall a, b | 0 <= a < b < |r| ensures r[a] != r[b] {
      var a' := if a < i then a else a + 1;
      var b' := if b < i then b else b + 1;
      assert r[a] == s[a'] && r[b] == s[b'];
    }
  }

  /** Dropping position `i` of a duplicate-free sequence removes exactly the element held there. */
  lemma DropMembers<T>(s: seq<T>, i: nat)
    requires i < |s| && NoDup(s)
    ensures forall y :: y in s[..i] + s[i + 1..] <==> y in s && y != s[i]
  {
    assert s == s[..i] + [s[i]] + s[i + 1..];
    forall k | 0 <= k < |s| && k != i ensures s[k] != s[i] {
    }
    assert s[i] !in s[..i] && s[i] !in s[i + 1..];
  }

  /** As written, removing a window that is not in the stack drops the LAST member (`splice(-1, 1)`). */
  lemma WithoutNonMember<T>(s: seq<T>, x: T)
    requires x !in s && s != []
    ensures Without(s, x) == s[..|s| - 1]
  {
  }

  /** Pushing a window that is not yet in the stack keeps it duplicate-free. */
  lemma PushFresh<T>(s: seq<T>, x: T)
    requires x !in s && NoDup(s)
    ensures NoDup(s + [x])
  {
    var r := s + [x];
    forall a, b | 0 <= a < b < |r| ensures r[a] != r[b] {
      if b == |s| { assert r[a] == s[a]; }
    }
  }

  /** Removing the window just pushed gives back the stack it was pushed on. */
  lemma WithoutPushed<T>(s: seq<T>, x: T)
    requires x !in s
    ensures Without(s + [x], x) == s
  {
    var r := s + [x];
    assert r[|s|] == x && r[..|s|] == s;
    assert IndexOf(r, x) == |s|;
  }

  /** Width of each of `n` minimized windows: `Math.min(root_w / n, 250)`. */
  function SlotWidth(n: nat, rootW: real): (w: real)
    requires n > 0
    ensures w <= SlotCap && w * n as real <= rootW
    ensures w == SlotCap || w * n as real == rootW
  {
    Min(rootW / n as real, SlotCap)
  }

  /**
   * Where `update_min_stack`, triggered by a window with bounds `b`, renders
   * member `i` of `n`: one row of equal slots from the left inset, pinned
   * above the bottom inset.
   */
  function Slot(i: nat, n: nat, b: Bounds): (r: Rect)
    requires i < n
    ensures r.w == SlotWidth(n, b.rootW) && r.h == BarHeight
    ensures r.x == b.left + i as real * r.w && r.y + r.h == b.rootH - b.bottom
  {
    var w := SlotWidth(n, b.rootW);
    Rect(b.left + i as real * w, b.rootH - b.bottom - BarHeight, w, BarHeight)
  }

  /** Slots are laid side by side with no gap or overlap, all on one row and no wider than 250. */
  lemma SlotsTile(i: nat, n: nat, b: Bounds)
    requires i + 1 < n
    ensures Slot(i + 1, n, b).x == Slot(i, n, b).x + Slot(i, n, b).w
    ensures Slot(i + 1, n, b).y == Slot(i, n, b).y && Slot(i, n, b).w <= SlotCap
  {
  }

  /** On a viewport of non-negative width, the row ends within `left + root_w`. */
  lemma SlotsFit(i: nat, n: nat, b: Bounds)
    requires i < n && b.rootW >= 0.0
    ensures Slot(i, n, b).x + Slot(i, n, b).w <= b.left + b.rootW
  {
    var w := SlotWidth(n, b.rootW);
    assert w <= b.rootW / n as real;
    assert w >= 0.0;
    calc {
      (i as real + 1.0) * w;
    <= n as real * w;
    <= n as real * (b.rootW / n as real);
    == b.rootW;
    }
  }

  /**
   * On a 1000-wide viewport two or three minimized windows are capped at
   * 250 each (at 0, 250, 500); five share it at 200 each.
   */
  lemma SlotExamples(b: Bounds)
    requires b.rootW == 1000.0 && b.left == 0.0
    ensures Slot(0, 2, b).w == 250.0 && Slot(0, 2, b).x == 0.0 && Slot(1, 2, b).x == 250.0
    ensures Slot(0, 3, b).w == 250.0 && Slot(1, 3, b).x == 250.0 && Slot(2, 3, b).x == 500.0
    ensures Slot(0, 5, b).w == 200.0 && Slot(4, 5, b).x == 800.0
  {
  }
}
