/**
 * The frame address computed once when record-api.js loads
 * (`getframeLocation`): walking from the current window up through `parent`
 * to `top`, it prepends ":" and the current window's index in its parent's
 * `frames`, then prepends "root".
 */
module FrameLocator {
  import opened Options

  type WindowId = nat

  /** The window tree, abstractly: which window is `top`, each window's `parent` and `frames`. */
  datatype WindowTree = WindowTree(top: WindowId, parent: map<WindowId, WindowId>, frames: map<WindowId, seq<WindowId>>)

  /** Every window of the tree has a parent (itself for `top`) and a frame list, and parents stay in the tree. */
  ghost predicate Closed(t: WindowTree) {
    && t.top in t.parent
    && t.frames.Keys == t.parent.Keys
    && forall w :: w in t.parent ==> t.parent[w] in t.parent
  }

  /** What the walk does: the indices it collects, ordered top-down, or that it never ends. */
  datatype Walk =
    | Reached(indices: seq<nat>)
      /** the window is missing from its parent's non-empty `frames`: the loop spins forever */
    | Spins
      /** more parent steps than the fuel allows (a parent chain that never reaches `top`) */
    | OutOfFuel

  /** The first position of `w` in `fs`: the `idx` at which the source's `for` loop breaks. */
  function IndexOf(fs: seq<WindowId>, w: WindowId): (idx: nat)
    requires w in fs
    ensures idx < |fs| && fs[idx] == w
    ensures forall j :: 0 <= j < idx ==> fs[j] != w
  {
    if fs[0] == w then 0 else 1 + IndexOf(fs[1..], w)
  }

  /** The reference semantics of the walk from `w`, allowing at most `fuel` parent steps. */
  function WalkUp(t: WindowTree, w: WindowId, fuel: nat): (r: Walk)
    requires Closed(t) && w in t.parent
    ensures w == t.top ==> r == Reached([])
    ensures r.Reached? ==> |r.indices| <= fuel
    decreases fuel
  {
    if w == t.top then Reached([])
    else
      var p := t.parent[w];
      var fs := t.frames[p];
      if |fs| == 0 then Reached([])
      else if w !in fs then Spins
      else if fuel == 0 then OutOfFuel
      else
        match WalkUp(t, p, fuel - 1)
        case Reached(above) => Reached(above + [IndexOf(fs, w)])
        case other => other
  }

  // ---- Rendering an address ----

  predicate IsDigit(c: char) {
    '0' <= c <= '9'
  }

  predicate AllDigits(s: string) {
    forall i :: 0 <= i < |s| ==> IsDigit(s[i])
  }

  function DigitChar(d: nat): (c: char)
    requires d < 10
    ensures IsDigit(c)
  {
    ('0' as int + d) as char
  }

  function DigitValue(c: char): (d: nat)
    requires IsDigit(c)
    ensures d < 10
  {
    c as int - '0' as int
  }

  /** JavaScript's decimal rendering of a non-negative integer (`":" + idx`). */
  function NatToString(n: nat): (s: string)
    ensures |s| > 0 && AllDigits(s)
    ensures s[0] == '0' <==> n == 0
    decreases n
  {
    if n < 10 then [DigitChar(n)] else NatToString(n / 10) + [DigitChar(n % 10)]
  }

  /** The number a string of decimal digits denotes. */
  function DigitsValue(s: string): nat
    requires AllDigits(s)
    decreases |s|
  {
    if s == [] then 0 else DigitsValue(s[..|s| - 1]) * 10 + DigitValue(s[|s| - 1])
  }

  lemma {:induction false} NatToStringValue(n: nat)
    ensures DigitsValue(NatToString(n)) == n
    decreases n
  {
    if n >= 10 {
      NatToStringValue(n / 10);
      var s := NatToString(n);
      assert s[..|s| - 1] == NatToString(n / 10);
    }
  }

  /** The accumulated `frameLocation` suffix for indices ordered top-down. */
  function Segments(indices: seq<nat>): string {
    if indices == [] then "" else ":" + NatToString(indices[0]) + Segments(indices[1..])
  }

  /** The final `"root" + frameLocation`. */
  function Render(indices: seq<nat>): string {
    "root" + Segments(indices)
  }

  // ---- Reading an address back ----

  /** The length of the run of digits at the front of `s`. */
  function SpanDigits(s: string): (n: nat)
    ensures n <= |s| && AllDigits(s[..n])
    ensures n < |s| ==> !IsDigit(s[n])
  {
    if s != [] && IsDigit(s[0]) then
      var n := 1 + SpanDigits(s[1..]);
      assert s[..n] == [s[0]] + s[1..][..n - 1];
      n
    else 0
  }

  function ParseSegments(s: string): Option<seq<nat>>
    decreases |s|
  {
    if s == [] then Some([])
    else if s[0] != ':' then None
    else
      var n := SpanDigits(s[1..]);
      if n == 0 then None
      else
        match ParseSegments(s[1 + n..])
        case None => None
        case Some(rest) =>
          assert s[1..1 + n] == s[1..][..n];
          Some([DigitsValue(s[1..1 + n])] + rest)
  }

  /** Recognises `root(:\d+)*` and returns the indices it spells. */
  function ParseAddress(s: string): Option<seq<nat>> {
    if |s| >= 4 && s[..4] == "root" then ParseSegments(s[4..]) else None
  }

  lemma {:induction false} SpanDigitsOfRendered(d: string, rest: string)
    requires AllDigits(d)
    requires rest == [] || rest[0] == ':'
    ensures SpanDigits(d + rest) == |d|
    decreases |d|
  {
    if d != [] {
      assert (d + rest)[1..] == d[1..] + rest;
      SpanDigitsOfRendered(d[1..], rest);
    }
  }

  lemma {:induction false} ParseSegmentsRoundTrip(indices: seq<nat>)
    ensures ParseSegments(Segments(indices)) == Some(indices)
    decreases |indices|
  {
    if indices != [] {
      var d := NatToString(indices[0]);
      var rest := Segments(indices[1..]);
      var s := Segments(indices);
      assert s == ":" + d + rest;
      assert s[1..] == d + rest;
      SpanDigitsOfRendered(d, rest);
      assert s[1..1 + |d|] == d;
      assert s[1 + |d|..] == rest;
      NatToStringValue(indices[0]);
      ParseSegmentsRoundTrip(indices[1..]);
      assert [indices[0]] + indices[1..] == indices;
    }
  }

  /** A rendered address has the shape `root(:\d+)*` and spells exactly its indices. */
  lemma AddressRoundTrip(indices: seq<nat>)
    ensures ParseAddress(Render(indices)) == Some(indices)
  {
    var s := Render(indices);
    assert s[..4] == "root";
    assert s[4..] == Segments(indices);
    ParseSegmentsRoundTrip(indices);
  }

  // ---- The walk itself ----

  /** A walk that ends and goes on past `w` finds `w` in its parent's frames and continues from the parent. */
  lemma WalkUpStep(t: WindowTree, w: WindowId, fuel: nat)
    requires Closed(t) && w in t.parent
    requires WalkUp(t, w, fuel).Reached? && w != t.top && |t.frames[t.parent[w]]| > 0
    ensures w in t.frames[t.parent[w]] && fuel > 0
    ensures WalkUp(t, t.parent[w], fuel - 1).Reached?
    ensures WalkUp(t, w, fuel).indices == WalkUp(t, t.parent[w], fuel - 1).indices + [IndexOf(t.frames[t.parent[w]], w)]
  {
  }

  /**
   * One pass of the source's `for` loop over the parent's `frames`: at the
   * first position holding the current window it prepends ":" and that index
   * and moves up to the parent; when the window is not there the loop falls
   * through and the current window and the suffix stay as they were, so the
   * enclosing `while` makes no progress.
   */
  method ScanFrames(frames: seq<WindowId>, currentWindow: WindowId, currentParentWindow: WindowId, frameLocation: string)
    returns (nextWindow: WindowId, nextLocation: string)
    ensures currentWindow in frames ==>
      nextWindow == currentParentWindow && nextLocation == ":" + NatToString(IndexOf(frames, currentWindow)) + frameLocation
    ensures currentWindow !in frames ==> nextWindow == currentWindow && nextLocation == frameLocation
  {
    nextWindow, nextLocation := currentWindow, frameLocation;
    for idx := 0 to |frames|
      invariant forall j :: 0 <= j < idx ==> frames[j] != currentWindow
      invariant nextWindow == currentWindow && nextLocation == frameLocation
    {
      if frames[idx] == currentWindow {
        assert idx == IndexOf(frames, currentWindow);
        nextLocation := ":" + NatToString(idx) + frameLocation;
        nextWindow := currentParentWindow;
        break;
      }
    }
  }

  /**
   * `getframeLocation`, with the source's `while` and `for` loops. The walk
   * must end (the window is found in every non-empty parent frame list and
   * the chain reaches `top` within `fuel` steps); its result is "root"
   * followed by one ":idx" per step the reference walk takes.
   */
  method GetFrameLocation(t: WindowTree, window: WindowId, ghost fuel: nat) returns (frameLocation: string)
    requires Closed(t) && window in t.parent
    requires WalkUp(t, window, fuel).Reached?
    ensures frameLocation == Render(WalkUp(t, window, fuel).indices)
  {
    var currentWindow := window;
    var suffix := "";
    ghost var below: seq<nat> := [];
    ghost var f := fuel;
    while currentWindow != t.top
      invariant currentWindow in t.parent
      invariant WalkUp(t, currentWindow, f).Reached?
      invariant WalkUp(t, window, fuel).indices == WalkUp(t, currentWindow, f).indices + below
      invariant suffix == Segments(below)
      decreases f
    {
      var currentParentWindow := t.parent[currentWindow];
      var frames := t.frames[currentParentWindow];
      if |frames| == 0 {
        assert WalkUp(t, currentWindow, f) == Reached([]);
        break;
      }
      ghost var idx := IndexOf(frames, currentWindow);
      WalkUpStep(t, currentWindow, f);
      ghost var above := WalkUp(t, currentParentWindow, f - 1).indices;
      assert above + [idx] + below == above + ([idx] + below);
      currentWindow, suffix := ScanFrames(frames, currentWindow, currentParentWindow, suffix);
      below := [idx] + below;
      f := f - 1;
    }
    assert WalkUp(t, currentWindow, f) == Reached([]);
    assert WalkUp(t, window, fuel).indices == below;
    frameLocation := "root" + suffix;
  }

  // ---- Properties of the walk ----

  /** The parent of `w`, `k` levels up. */
  function Ancestor(t: WindowTree, w: WindowId, k: nat): (a: WindowId)
    requires Closed(t) && w in t.parent
    ensures a in t.parent
    decreases k
  {
    if k == 0 then w else Ancestor(t, t.parent[w], k - 1)
  }

  /** The first `k` steps up from `w` stay below `top` and find each window in its parent's `frames`. */
  ghost predicate StepsFound(t: WindowTree, w: WindowId, k: nat)
    requires Closed(t) && w in t.parent
  {
    forall j :: 0 <= j < k ==> Ancestor(t, w, j) != t.top && Ancestor(t, w, j) in t.frames[Ancestor(t, w, j + 1)]
  }

  /**
   * A well-formed tree as seen from `w`: the parent chain reaches `top` after
   * exactly `depth` steps, and every window on the way appears in its parent's
   * `frames`.
   */
  ghost predicate NestedAt(t: WindowTree, w: WindowId, depth: nat)
    requires Closed(t) && w in t.parent
  {
    StepsFound(t, w, depth) && Ancestor(t, w, depth) == t.top
  }

  /** The index the walk records for the step from the `k`-th ancestor of `w` to its parent. */
  function StepIndex(t: WindowTree, w: WindowId, k: nat): nat
    requires Closed(t) && w in t.parent
    requires StepsFound(t, w, k + 1)
  {
    IndexOf(t.frames[Ancestor(t, w, k + 1)], Ancestor(t, w, k))
  }

  /**
   * A walk that takes `k` successful steps and then stops, at `top` or at a
   * parent without frames, collects one index per step; read from the end,
   * the `j`-th index is the position of the `j`-th ancestor in the frames of
   * its own parent.
   */
  lemma {:induction false} WalkCollects(t: WindowTree, w: WindowId, k: nat, fuel: nat)
    requires Closed(t) && w in t.parent
    requires StepsFound(t, w, k) && k <= fuel
    requires Ancestor(t, w, k) == t.top || |t.frames[t.parent[Ancestor(t, w, k)]]| == 0
    ensures WalkUp(t, w, fuel).Reached?
    ensures |WalkUp(t, w, fuel).indices| == k
    ensures forall j :: 0 <= j < k ==> WalkUp(t, w, fuel).indices[k - 1 - j] == StepIndex(t, w, j)
    decreases k
  {
    if k > 0 {
      var p := t.parent[w];
      assert Ancestor(t, w, 0) == w && Ancestor(t, w, 1) == p;
      forall j | 0 <= j < k - 1
        ensures Ancestor(t, p, j) != t.top && Ancestor(t, p, j) in t.frames[Ancestor(t, p, j + 1)]
      {
        assert Ancestor(t, w, j + 1) == Ancestor(t, p, j);
        assert Ancestor(t, w, j + 2) == Ancestor(t, p, j + 1);
      }
      assert Ancestor(t, w, k) == Ancestor(t, p, k - 1);
      WalkCollects(t, p, k - 1, fuel - 1);
      var above := WalkUp(t, p, fuel - 1).indices;
      var xs := WalkUp(t, w, fuel).indices;
      assert xs == above + [IndexOf(t.frames[p], w)];
      forall j | 0 <= j < k
        ensures xs[k - 1 - j] == StepIndex(t, w, j)
      {
        if j > 0 {
          assert Ancestor(t, w, j) == Ancestor(t, p, j - 1);
          assert Ancestor(t, w, j + 1) == Ancestor(t, p, j);
          assert xs[k - 1 - j] == above[(k - 1) - 1 - (j - 1)];
          assert StepIndex(t, w, j) == StepIndex(t, p, j - 1);
        } else {
          assert xs[k - 1] == IndexOf(t.frames[p], w);
        }
      }
    } else {
      assert Ancestor(t, w, 0) == w;
    }
  }

  /**
   * On a well-formed tree the address has one index per nesting level, and
   * each is the window's position in its parent's `frames`, ordered top-down.
   */
  lemma NestedAddress(t: WindowTree, w: WindowId, depth: nat)
    requires Closed(t) && w in t.parent
    requires NestedAt(t, w, depth)
    ensures WalkUp(t, w, depth).Reached?
    ensures |WalkUp(t, w, depth).indices| == depth
    ensures forall j :: 0 <= j < depth ==> WalkUp(t, w, depth).indices[depth - 1 - j] == StepIndex(t, w, j)
    ensures ParseAddress(Render(WalkUp(t, w, depth).indices)) == Some(WalkUp(t, w, depth).indices)
  {
    WalkCollects(t, w, depth, depth);
    AddressRoundTrip(WalkUp(t, w, depth).indices);
  }

  /** The top window's address is "root". */
  lemma TopIsRoot(t: WindowTree, fuel: nat)
    requires Closed(t)
    ensures WalkUp(t, t.top, fuel) == Reached([])
    ensures Render(WalkUp(t, t.top, fuel).indices) == "root"
  {
  }

  /**
   * The early `break`: when the walk meets a parent without frames after `k`
   * steps, it keeps the `k` indices already accumulated and no more. This is
   * `WalkCollects` for a walk that stops below `top`.
   */
  lemma EarlyBreakKeepsSuffix(t: WindowTree, w: WindowId, k: nat, fuel: nat)
    requires Closed(t) && w in t.parent
    requires StepsFound(t, w, k) && k <= fuel
    requires Ancestor(t, w, k) != t.top && |t.frames[t.parent[Ancestor(t, w, k)]]| == 0
    ensures WalkUp(t, w, fuel).Reached?
    ensures |WalkUp(t, w, fuel).indices| == k
    ensures forall j :: 0 <= j < k ==> WalkUp(t, w, fuel).indices[k - 1 - j] == StepIndex(t, w, j)
  {
    WalkCollects(t, w, k, fuel);
  }

  /**
   * A window missing from its parent's non-empty `frames` makes the source
   * loop forever, whatever the fuel: `ScanFrames` then leaves the current
   * window unchanged, so each turn of the `while` loop starts where the last
   * one did.
   */
  lemma MissingFrameSpins(t: WindowTree, w: WindowId, fuel: nat)
    requires Closed(t) && w in t.parent
    requires w != t.top && |t.frames[t.parent[w]]| > 0 && w !in t.frames[t.parent[w]]
    ensures WalkUp(t, w, fuel) == Spins
  {
  }

  /** A frame of the top window at index 1 has address "root:1". */
  lemma SecondChildOfTop()
    ensures var t := WindowTree(0, map[0 := 0, 1 := 0, 2 := 0], map[0 := [1, 2], 1 := [], 2 := []]);
      Closed(t) && WalkUp(t, 2, 1) == Reached([1]) && Render(WalkUp(t, 2, 1).indices) == "root:1"
  {
    var t := WindowTree(0, map[0 := 0, 1 := 0, 2 := 0], map[0 := [1, 2], 1 := [], 2 := []]);
    assert IndexOf([1, 2], 2) == 1;
    assert NatToString(1) == "1";
  }
}
