/** The z-order manager of the desktop: an ordered list of window ids in
    which the last id is the topmost window. Focusing a window moves its id
    to the end; a window's z-index is derived from its position. */
module WindowStack {
  import opened Base

  /** The canonical window ids (WINDOW_IDS). */
  datatype WindowId = Properties | Explorer | Notepad | Cmd | Gemini | Paint | Pinball | Tetris

  /** The z-index of the bottom of the stack. */
  const BaseZ: int := 30

  /** The stack as seeded at startup. Paint is a known id that the desktop
      never stacks. */
  const InitialStack: seq<WindowId> := [Properties, Explorer, Notepad, Cmd, Gemini, Pinball, Tetris]

  lemma InitialStackHasNoDuplicates()
    ensures NoDuplicates(InitialStack)
  {
  }

  /** The windows above which Clippy may float when they are on top. */
  const ClippyTopWindows: set<WindowId> := {Gemini, Cmd}

  predicate NoDuplicates(s: seq<WindowId>) {
    forall i, j :: 0 <= i < j < |s| ==> s[i] != s[j]
  }

  /** The stack without `id`, all other entries in their old order. */
  function Without(s: seq<WindowId>, id: WindowId): (r: seq<WindowId>)
    ensures forall w :: w in r <==> w in s && w != id
    ensures |r| <= |s|
  {
    if s == [] then [] else (if s[0] == id then [] else [s[0]]) + Without(s[1..], id)
  }

  lemma {:induction false} WithoutKeepsNoDuplicates(s: seq<WindowId>, id: WindowId)
    requires NoDuplicates(s)
    ensures NoDuplicates(Without(s, id))
  {
    if s != [] {
      WithoutKeepsNoDuplicates(s[1..], id);
      var rest := Without(s[1..], id);
      assert s[0] !in s[1..];
      assert s[0] !in rest;
    }
  }

  lemma {:induction false} WithoutAppend(a: seq<WindowId>, b: seq<WindowId>, id: WindowId)
    ensures Without(a + b, id) == Without(a, id) + Without(b, id)
  {
    if a != [] {
      assert (a + b)[1..] == a[1..] + b;
      WithoutAppend(a[1..], b, id);
    } else {
      assert a + b == b;
    }
  }

  lemma {:induction false} WithoutTwice(s: seq<WindowId>, id: WindowId)
    ensures Without(Without(s, id), id) == Without(s, id)
  {
    if s != [] {
      WithoutTwice(s[1..], id);
      var head := if s[0] == id then [] else [s[0]];
      WithoutAppend(head, Without(s[1..], id), id);
    }
  }

  /** bringWindowToFront: filter the id out and append it. */
  function BringToFront(s: seq<WindowId>, id: WindowId): (r: seq<WindowId>)
    ensures |r| > 0 && r[|r| - 1] == id
    ensures forall w :: w in r <==> w in s || w == id
  {
    Without(s, id) + [id]
  }

  /** The other ids keep their relative order, and a stack without
      duplicates stays without duplicates. */
  lemma BringToFrontKeepsOthers(s: seq<WindowId>, id: WindowId)
    ensures Without(BringToFront(s, id), id) == Without(s, id)
    ensures NoDuplicates(s) ==> NoDuplicates(BringToFront(s, id))
    ensures id in s && NoDuplicates(s) ==> |BringToFront(s, id)| == |s|
  {
    WithoutAppend(Without(s, id), [id], id);
    assert Without([id], id) == [];
    WithoutTwice(s, id);
    if NoDuplicates(s) {
      WithoutKeepsNoDuplicates(s, id);
      if id in s {
        WithoutCountsOne(s, id);
      }
    }
  }

  lemma {:induction false} WithoutCountsOne(s: seq<WindowId>, id: WindowId)
    requires NoDuplicates(s) && id in s
    ensures |Without(s, id)| == |s| - 1
  {
    if s[0] == id {
      assert id !in s[1..];
      WithoutAbsent(s[1..], id);
    } else {
      assert id in s[1..];
      WithoutCountsOne(s[1..], id);
    }
  }

  lemma {:induction false} WithoutAbsent(s: seq<WindowId>, id: WindowId)
    requires id !in s
    ensures Without(s, id) == s
  {
    if s != [] {
      assert id !in s[1..];
      WithoutAbsent(s[1..], id);
      assert [s[0]] + s[1..] == s;
    }
  }

  /** `windowStack.indexOf(id)`: the first position of `id`, or -1. */
  function IndexOf(s: seq<WindowId>, id: WindowId): (i: int)
    ensures -1 <= i < |s|
    ensures i == -1 <==> id !in s
    ensures 0 <= i ==> s[i] == id && forall j :: 0 <= j < i ==> s[j] != id
  {
    if s == [] then -1
    else if s[0] == id then 0
    else
      var k := IndexOf(s[1..], id);
      if k == -1 then -1 else k + 1
  }

  /** getWindowZ: 30 plus the stack position; an unstacked id gets 29. */
  function WindowZ(s: seq<WindowId>, id: WindowId): (z: int)
    ensures z == BaseZ - 1 <==> id !in s
    ensures id in s ==> BaseZ <= z < BaseZ + |s| && s[z - BaseZ] == id
  {
    BaseZ + IndexOf(s, id)
  }

  /** After focusing `id`, it is strictly above every other known id. */
  lemma FocusedIsTopmost(s: seq<WindowId>, id: WindowId)
    ensures forall w :: w != id ==> WindowZ(BringToFront(s, id), w) < WindowZ(BringToFront(s, id), id)
  {
    var r := BringToFront(s, id);
    assert id !in Without(s, id);
    assert forall j :: 0 <= j < |r| - 1 ==> r[j] != id by {
      forall j | 0 <= j < |r| - 1 ensures r[j] != id {
        assert r[j] == Without(s, id)[j];
      }
    }
    assert IndexOf(r, id) == |r| - 1;
  }

  /** Focusing each id of `ids` in turn. */
  function FocusAll(s: seq<WindowId>, ids: seq<WindowId>): seq<WindowId>
  {
    if ids == [] then s else BringToFront(FocusAll(s, ids[..|ids| - 1]), ids[|ids| - 1])
  }

  /** After any sequence of focus calls the stack holds each id once, and
      the id focused last is strictly above all others. */
  lemma {:induction false} FocusSequence(s: seq<WindowId>, ids: seq<WindowId>)
    requires NoDuplicates(s)
    ensures NoDuplicates(FocusAll(s, ids))
    ensures ids != [] ==> forall w :: w != ids[|ids| - 1] ==>
      WindowZ(FocusAll(s, ids), w) < WindowZ(FocusAll(s, ids), ids[|ids| - 1])
  {
    if ids != [] {
      var prefix := FocusAll(s, ids[..|ids| - 1]);
      FocusSequence(s, ids[..|ids| - 1]);
      BringToFrontKeepsOthers(prefix, ids[|ids| - 1]);
      FocusedIsTopmost(prefix, ids[|ids| - 1]);
    }
  }

  /** The position of the last open id in the stack, or -1 when none is open. */
  function TopOpenIndex(s: seq<WindowId>, open: set<WindowId>): (i: int)
    ensures -1 <= i < |s|
    ensures 0 <= i ==> s[i] in open
    ensures forall j :: i < j < |s| ==> s[j] !in open
  {
    if s == [] then -1
    else if s[|s| - 1] in open then |s| - 1
    else
      var i := TopOpenIndex(s[..|s| - 1], open);
      assert forall j :: 0 <= j < |s| - 1 ==> s[..|s| - 1][j] == s[j];
      i
  }

  /** topOpenWindowId: the last id of the stack whose window is open, or
      nothing when no stacked window is open. */
  function TopOpenWindow(s: seq<WindowId>, open: set<WindowId>): (r: Option<WindowId>)
    ensures r.None? <==> forall i :: 0 <= i < |s| ==> s[i] !in open
    ensures r.Some? ==> r.value in open && r.value in s
    ensures r.Some? ==> exists i :: 0 <= i < |s| && s[i] == r.value && forall j :: i < j < |s| ==> s[j] !in open
  {
    var i := TopOpenIndex(s, open);
    if i == -1 then None else Some(s[i])
  }

  /** Opening or focusing an open window makes it the topmost open one. */
  lemma FocusedOpenWindowIsTop(s: seq<WindowId>, open: set<WindowId>, id: WindowId)
    requires id in open
    ensures TopOpenWindow(BringToFront(s, id), open) == Some(id)
  {
  }

  /** clippyZIndex: 90 above gemini and cmd, 26 otherwise. */
  function ClippyZIndex(top: Option<WindowId>): (z: int)
  {
    if top.Some? && top.value in ClippyTopWindows then 90 else 26
  }

  /** Clippy floats above every window exactly when the topmost open
      window is gemini or cmd, and below every stacked window otherwise (for
      stacks of at most 60 ids, so that no z-index reaches 90). */
  lemma ClippyPlacement(s: seq<WindowId>, open: set<WindowId>)
    requires |s| <= 60
    ensures var top := TopOpenWindow(s, open);
      if top == Some(Gemini) || top == Some(Cmd)
      then forall w :: WindowZ(s, w) < ClippyZIndex(top)
      else forall w :: w in s ==> ClippyZIndex(top) < WindowZ(s, w)
  {
  }
}
