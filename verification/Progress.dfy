/** Runs of the search that perform events of another graph: what one of them leaves, and that they compose. */
module Progress {
  import opened Events
  import opened Consistency
  import opened Subgraphs
  import opened Tracking
  import opened Canonical

  /** From `g` the search came to `h`: nothing but Blocks is lost, events of `p` were performed, and whatever else was
      done is canonical. */
  ghost predicate Progresses(x: Graph, p: set<nat>, d: set<nat>, g: Graph, e: map<nat, nat>,
                             h: Graph, f: seq<nat>, e': map<nat, nat>)
  {
    && Grown(g, h, f) && Carries(e, e', f) && Tracks(h, x, d, e') && e'.Keys <= p
    && forall z: nat :: |f| <= z < |h.events| && z !in e'.Values ==> CanonAt(h, x, p, e', z)
  }

  /** How many of the ascending ids are below `n`. */
  ghost function CountBelow(f: seq<nat>, n: nat): (k: nat)
    requires Ascending(f)
    ensures k <= |f| && (forall i :: 0 <= i < k ==> f[i] < n) && forall i :: k <= i < |f| ==> f[i] >= n
  {
    if f == [] then 0
    else if f[|f| - 1] < n then |f|
    else CountBelow(f[..|f| - 1], n)
  }

  ghost function Compose(f: seq<nat>, f': seq<nat>): (c: seq<nat>)
    requires Ascending(f')
    ensures |c| == CountBelow(f', |f|) && forall i :: 0 <= i < |c| ==> c[i] == f[f'[i]]
  {
    seq(CountBelow(f', |f|), i requires 0 <= i < CountBelow(f', |f|) => f[f'[i]])
  }

  lemma ComposedKeeps(g: Graph, h: Graph, w: Graph, f: seq<nat>, f': seq<nat>, y: nat)
    requires Grown(g, h, f) && Grown(h, w, f') && y < |g.events|
    ensures y in Compose(f, f') || IsBlock(g, y)
  {
    if y in f {
      var j := IndexOf(f, y);
      if j in f' {
        var i := IndexOf(f', j);
        assert Compose(f, f')[i] == y;
      } else {
        assert IsBlock(h, j);
      }
    }
  }

  lemma ComposedSource(g: Graph, h: Graph, w: Graph, f: seq<nat>, f': seq<nat>, i: nat)
    requires Grown(g, h, f) && Grown(h, w, f') && i < |Compose(f, f')|
    ensures i in w.rf <==> Compose(f, f')[i] in g.rf
    ensures i in w.rf ==> SourceMoved(Compose(f, f'), g.rf[Compose(f, f')[i]], w.rf[i])
  {
    if i in w.rf {
      assert SourceMoved(f', h.rf[f'[i]], w.rf[i]);
      assert SourceMoved(f, g.rf[f[f'[i]]], h.rf[f'[i]]);
    }
  }

  lemma GrownComposes(g: Graph, h: Graph, w: Graph, f: seq<nat>, f': seq<nat>)
    requires Grown(g, h, f) && Grown(h, w, f')
    ensures Grown(g, w, Compose(f, f'))
  {
    var c := Compose(f, f');
    forall i, j | 0 <= i < j < |c| ensures c[i] < c[j] { AscendingInjective(f, f'[i], f'[j]); }
    forall y: nat | y < |g.events| && y !in c ensures IsBlock(g, y) { ComposedKeeps(g, h, w, f, f', y); }
    forall i | 0 <= i < |c|
      ensures (i in w.rf <==> c[i] in g.rf) && (i in w.rf ==> SourceMoved(c, g.rf[c[i]], w.rf[i]))
    {
      ComposedSource(g, h, w, f, f', i);
    }
  }

  lemma CarriesComposes(e: map<nat, nat>, e': map<nat, nat>, e'': map<nat, nat>, f: seq<nat>, f': seq<nat>)
    requires Ascending(f') && Carries(e, e', f) && Carries(e', e'', f')
    ensures Carries(e, e'', Compose(f, f'))
  {
    var c := Compose(f, f');
    forall a | a in e'' && a !in e ensures e''[a] >= |c| {
      assert a in e' ==> f'[e''[a]] >= |f|;
    }
  }

  lemma ProgressComposes(x: Graph, p: set<nat>, d: set<nat>, g: Graph, e: map<nat, nat>, h: Graph, f: seq<nat>,
                         e': map<nat, nat>, w: Graph, f': seq<nat>, e'': map<nat, nat>)
    requires Progresses(x, p, d, g, e, h, f, e') && Progresses(x, p, d, h, e', w, f', e'')
    requires WellFormed(h) && WellFormed(w)
    ensures Ascending(f') && Progresses(x, p, d, g, e, w, Compose(f, f'), e'')
  {
    hide Grown, Carries, Tracks, CanonAt, WellFormed;
    GrownAscends(g, h, f);
    GrownAscends(h, w, f');
    GrownComposes(g, h, w, f, f');
    CarriesComposes(e, e', e'', f, f');
    TracksParts(w, x, d, e'');
    forall z: nat | |Compose(f, f')| <= z < |w.events| && z !in e''.Values ensures CanonAt(w, x, p, e'', z) {
      if z < |f'| {
        CarriedValue(e', e'', f', z);
        CanonKept(h, w, f', x, p, e', e'', z);
      }
    }
  }

  lemma GrownAscends(g: Graph, h: Graph, f: seq<nat>)
    requires Grown(g, h, f)
    ensures Ascending(f) && |f| <= |h.events| && forall i :: 0 <= i < |f| ==> f[i] < |g.events|
  {
  }
}
