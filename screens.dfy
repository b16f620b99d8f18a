/** How one run of the dashboard script draws a sequence of chat bubbles:
    Streamlit shows every element written before an exception, and the
    exception ends the run. */
module Screens {
  import opened Common

  /** A bubble as far as it was drawn, and the exception that stopped the
      script there, if any. */
  datatype Drawn<V> = Drawn(view: V, fault: Option<Fault>)

  /** The bubbles one script run draws, and the exception that ended the run
      early, if any. */
  datatype Shown<V> = Shown(views: seq<V>, fault: Option<Fault>)

  /** What a script run shows for a sequence of bubbles: each one in order,
      until one raises. */
  function Run<V>(ss: seq<Drawn<V>>): (r: Shown<V>)
    ensures |r.views| <= |ss|
    ensures r.fault.None? ==> |r.views| == |ss|
    decreases |ss|
  {
    if ss == [] then Shown([], None)
    else
      var s := Run(ss[..|ss| - 1]);
      if s.fault.Some? then s
      else Shown(s.views + [ss[|ss| - 1].view], ss[|ss| - 1].fault)
  }

  /** A run draws the bubbles in order; it ends without an exception exactly
      when no bubble raises, having drawn them all, and otherwise ends with
      the exception of the last bubble it drew, the first that raised. */
  lemma {:induction false} RunShows<V>(ss: seq<Drawn<V>>)
    ensures var r := Run(ss);
      (forall i :: 0 <= i < |r.views| ==> r.views[i] == ss[i].view)
      && (r.fault.None? <==> |r.views| == |ss| && forall i :: 0 <= i < |ss| ==> ss[i].fault.None?)
      && (r.fault.Some? ==>
            r.views != [] && r.fault == ss[|r.views| - 1].fault
            && forall i :: 0 <= i < |r.views| - 1 ==> ss[i].fault.None?)
    decreases |ss|
  {
    if ss != [] {
      var init := ss[..|ss| - 1];
      RunShows(init);
      assert forall i :: 0 <= i < |init| ==> init[i] == ss[i];
    }
  }

  /** Drawing a longer transcript draws its first part as before; the second
      part's bubbles follow unless the first part already raised. */
  lemma {:induction false} RunAppend<V>(a: seq<Drawn<V>>, b: seq<Drawn<V>>)
    ensures Run(a + b) ==
      if Run(a).fault.Some? then Run(a)
      else Shown(Run(a).views + Run(b).views, Run(b).fault)
    decreases |b|
  {
    if b == [] {
      assert a + b == a;
      assert Run(a).views + [] == Run(a).views;
    } else {
      var b' := b[..|b| - 1];
      assert (a + b)[..|a + b| - 1] == a + b';
      assert (a + b)[|a + b| - 1] == b[|b| - 1];
      RunAppend(a, b');
      if Run(a).fault.None? && Run(b').fault.None? {
        var v := b[|b| - 1].view;
        assert Run(a).views + Run(b').views + [v] == Run(a).views + (Run(b').views + [v]);
      }
    }
  }

  /** The views of the bubbles, in order. */
  function ViewsOf<V>(ss: seq<Drawn<V>>): (r: seq<V>)
    ensures |r| == |ss| && forall i :: 0 <= i < |ss| ==> r[i] == ss[i].view
  {
    seq(|ss|, i requires 0 <= i < |ss| => ss[i].view)
  }

  /** No bubble raises. */
  predicate Clean<V>(ss: seq<Drawn<V>>) {
    forall i :: 0 <= i < |ss| ==> ss[i].fault.None?
  }

  /** When no bubble raises, the run draws every bubble. */
  lemma {:induction false} RunClean<V>(ss: seq<Drawn<V>>)
    requires Clean(ss)
    ensures Run(ss) == Shown(ViewsOf(ss), None)
    decreases |ss|
  {
    if ss != [] {
      var init := ss[..|ss| - 1];
      assert Clean(init) by {
        assert forall i :: 0 <= i < |init| ==> init[i] == ss[i];
      }
      RunClean(init);
      assert ViewsOf(init) + [ss[|ss| - 1].view] == ViewsOf(ss);
    }
  }

  /** One more bubble extends the views of a prefix, and a clean prefix
      stays clean when that bubble does not raise. */
  lemma ExtendPrefix<V>(ss: seq<Drawn<V>>, i: nat)
    requires i < |ss|
    ensures ViewsOf(ss[..i + 1]) == ViewsOf(ss[..i]) + [ss[i].view]
    ensures Clean(ss[..i]) && ss[i].fault.None? ==> Clean(ss[..i + 1])
  {
    assert ss[..i + 1] == ss[..i] + [ss[i]];
  }

  /** When bubble `k` is the first that raises, the run draws the bubbles up
      to and including it and ends with its exception. */
  lemma {:induction false} RunFirstFault<V>(ss: seq<Drawn<V>>, k: nat)
    requires k < |ss| && Clean(ss[..k]) && ss[k].fault.Some?
    ensures Run(ss) == Shown(ViewsOf(ss[..k + 1]), ss[k].fault)
    decreases |ss|
  {
    var init := ss[..|ss| - 1];
    if k == |ss| - 1 {
      assert init == ss[..k];
      RunClean(init);
      assert ViewsOf(init) + [ss[k].view] == ViewsOf(ss[..k + 1]);
    } else {
      assert init[..k] == ss[..k] && init[k] == ss[k] && init[..k + 1] == ss[..k + 1];
      RunFirstFault(init, k);
    }
  }

  /** A run whose bubbles start with those of a clean run and then two more
      that do not raise draws that run's bubbles and then those two. */
  lemma {:induction false} RunAfterCleanPrefix<V>(ss: seq<Drawn<V>>, e: seq<Drawn<V>>)
    requires |ss| >= |e| + 2 && ss[..|e|] == e && Run(e).fault.None?
    requires ss[|e|].fault.None? && ss[|e| + 1].fault.None?
    ensures var r := Run(ss);
      |r.views| >= |e| + 2 && r.views[..|e|] == Run(e).views
      && r.views[|e|] == ss[|e|].view && r.views[|e| + 1] == ss[|e| + 1].view
    decreases |ss|
  {
    var init := ss[..|ss| - 1];
    if |ss| == |e| + 2 {
      var x := ss[|e|];
      assert init == e + [x];
      assert (e + [x])[..|e|] == e && (e + [x])[|e|] == x;
      assert Run(init) == Shown(Run(e).views + [x.view], None);
    } else {
      assert init[..|e|] == e && init[|e|] == ss[|e|] && init[|e| + 1] == ss[|e| + 1];
      RunAfterCleanPrefix(init, e);
      var r0 := Run(init);
      if r0.fault.None? {
        assert (r0.views + [ss[|ss| - 1].view])[..|e|] == r0.views[..|e|];
      }
    }
  }
}
