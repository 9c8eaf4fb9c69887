/**
 Startup, rollback and shutdown of nested runners (lifecycle/runner.go). A provider is a leaf, known by a
 number, or a runner over providers. What a leaf does with a context is given by two oracles: the
 context it returns, or nothing if it fails or returns a nil context.
 */
module LifecycleTree {
  import opened Options

  type Ctx = int

  datatype Provider = Leaf(id: nat) | Runner(children: seq<Provider>)

  datatype Oracle = Oracle(boot: (nat, Ctx) -> Option<Ctx>, shut: (nat, Ctx) -> Option<Ctx>)

  /** A call made on a leaf; a bootstrap call with the context it was given and whether it succeeded. */
  datatype Call = Boot(id: nat, ctx: Ctx, ok: bool) | Shut(id: nat)

  /** ctx is the last good context, started the number of providers up. */
  datatype Booted = Booted(log: seq<Call>, ctx: Ctx, started: nat, ok: bool)

  datatype Stopped = Stopped(log: seq<Call>, ctx: Ctx, ok: bool)

  datatype Outcome = Outcome(log: seq<Call>, result: Option<Ctx>)

  /** Runner.bootstrap: providers in order, each given the context of the one before. */
  function BootAll(o: Oracle, ps: seq<Provider>, ctx: Ctx): (r: Booted)
    ensures r.started <= |ps| && (r.ok <==> r.started == |ps|)
    decreases ps, 0
  {
    if ps == [] then Booted([], ctx, 0, true) else
      var first := BootOne(o, ps[0], ctx);
      if first.result.None? then Booted(first.log, ctx, 0, false) else
        var rest := BootAll(o, ps[1..], first.result.value);
        Booted(first.log + rest.log, rest.ctx, rest.started + 1, rest.ok)
  }

  /** Provider.Bootstrap; a runner that fails to start shuts down what it had started. */
  function BootOne(o: Oracle, p: Provider, ctx: Ctx): Outcome
    decreases p, 1
  {
    match p
    case Leaf(id) =>
      var next := o.boot(id, ctx);
      Outcome([Boot(id, ctx, next.Some?)], next)
    case Runner(children) =>
      var b := BootAll(o, children, ctx);
      if b.ok then Outcome(b.log, Some(b.ctx))
      else Outcome(b.log + StopAll(o, children[..b.started], b.ctx).log, None)
  }

  /** Runner.shutdown: providers in reverse order; a failure is noted and its context ignored. */
  function StopAll(o: Oracle, ps: seq<Provider>, ctx: Ctx): Stopped
    decreases ps, 0
  {
    if ps == [] then Stopped([], ctx, true) else
      var last := |ps| - 1;
      var p := StopOne(o, ps[last], ctx);
      var rest := StopAll(o, ps[..last], if p.result.Some? then p.result.value else ctx);
      Stopped(p.log + rest.log, rest.ctx, rest.ok && p.result.Some?)
  }

  function StopOne(o: Oracle, p: Provider, ctx: Ctx): Outcome
    decreases p, 1
  {
    match p
    case Leaf(id) => Outcome([Shut(id)], o.shut(id, ctx))
    case Runner(children) =>
      var s := StopAll(o, children, ctx);
      Outcome(s.log, if s.ok then Some(s.ctx) else None)
  }

  // ----- the loops -----

  method BootstrapLoop(o: Oracle, providers: seq<Provider>, start: Ctx) returns (r: Booted)
    ensures r == BootAll(o, providers, start)
    decreases providers, 0
  {
    hide BootOne;
    var ctx, started, log := start, 0, [];
    for i := 0 to |providers|
      invariant started == i
      invariant BootAll(o, providers, start) ==
                var rest := BootAll(o, providers[i..], ctx);
                Booted(log + rest.log, rest.ctx, i + rest.started, rest.ok)
    {
      assert providers[i..][0] == providers[i] && providers[i..][1..] == providers[i + 1..];
      assert providers[i] in providers;
      var p := Bootstrap(o, providers[i], ctx);
      ghost var rest := BootAll(o, providers[i..], ctx);
      if p.result.None? {
        assert log + rest.log == log + p.log;
        return Booted(log + p.log, ctx, started, false);
      }
      ghost var later := BootAll(o, providers[i + 1..], p.result.value);
      assert log + (p.log + later.log) == (log + p.log) + later.log;
      log := log + p.log;
      ctx := p.result.value;
      started := started + 1;
    }
    assert providers[|providers|..] == [];
    assert log + [] == log;
    return Booted(log, ctx, started, true);
  }

  method Bootstrap(o: Oracle, p: Provider, ctx: Ctx) returns (r: Outcome)
    ensures r == BootOne(o, p, ctx)
    decreases p, 1
  {
    match p
    case Leaf(id) =>
      var next := o.boot(id, ctx);
      return Outcome([Boot(id, ctx, next.Some?)], next);
    case Runner(children) =>
      var b := BootstrapLoop(o, children, ctx);
      if !b.ok {
        var rollback := ShutdownLoop(o, children[..b.started], b.ctx);
        return Outcome(b.log + rollback.log, None);
      }
      return Outcome(b.log, Some(b.ctx));
  }

  /** One turn of the loop: what is left is the shutdown of the providers before. */
  lemma StopNext(o: Oracle, ps: seq<Provider>, i: nat, ctx: Ctx, log: seq<Call>, ok: bool)
    requires i < |ps|
    ensures var p := StopOne(o, ps[i], ctx);
            var now := StopAll(o, ps[..i + 1], ctx);
            var rest := StopAll(o, ps[..i], if p.result.Some? then p.result.value else ctx);
            && log + now.log == (log + p.log) + rest.log && now.ctx == rest.ctx
            && (ok && now.ok) == ((ok && p.result.Some?) && rest.ok)
  {
    hide StopOne;
    assert ps[..i + 1][i] == ps[i] && ps[..i + 1][..i] == ps[..i];
    var p := StopOne(o, ps[i], ctx);
    var rest := StopAll(o, ps[..i], if p.result.Some? then p.result.value else ctx);
    assert log + (p.log + rest.log) == (log + p.log) + rest.log;
  }

  method ShutdownLoop(o: Oracle, providers: seq<Provider>, start: Ctx) returns (r: Stopped)
    ensures r == StopAll(o, providers, start)
    decreases providers, 0
  {
    var ctx, log, ok := start, [], true;
    assert providers[..|providers|] == providers;
    for i := |providers| downto 0
      invariant StopAll(o, providers, start) ==
                var rest := StopAll(o, providers[..i], ctx);
                Stopped(log + rest.log, rest.ctx, ok && rest.ok)
    {
      hide StopAll, StopOne;
      assert providers[i] in providers;
      StopNext(o, providers, i, ctx, log, ok);
      var p := Shutdown(o, providers[i], ctx);
      log := log + p.log;
      if p.result.None? {
        ok := false;
        continue;
      }
      ctx := p.result.value;
    }
    assert log + [] == log;
    return Stopped(log, ctx, ok);
  }

  method Shutdown(o: Oracle, p: Provider, ctx: Ctx) returns (r: Outcome)
    ensures r == StopOne(o, p, ctx)
    decreases p, 1
  {
    match p
    case Leaf(id) => return Outcome([Shut(id)], o.shut(id, ctx));
    case Runner(children) =>
      var s := ShutdownLoop(o, children, ctx);
      return Outcome(s.log, if s.ok then Some(s.ctx) else None);
  }

  // ----- nesting changes nothing -----

  /** The leaves of a tree, left to right. */
  function Leaves(p: Provider): seq<nat>
    decreases p, 1
  {
    match p
    case Leaf(id) => [id]
    case Runner(children) => LeavesOf(children)
  }

  function LeavesOf(ps: seq<Provider>): seq<nat>
    decreases ps, 0
  {
    if ps == [] then [] else Leaves(ps[0]) + LeavesOf(ps[1..])
  }

  function Flat(ids: seq<nat>): seq<Provider> {
    seq(|ids|, i requires 0 <= i < |ids| => Leaf(ids[i]))
  }

  /** Shutdown calls on leaves in reverse order. */
  function ShutCalls(ids: seq<nat>): seq<Call> {
    if ids == [] then [] else [Shut(ids[|ids| - 1])] + ShutCalls(ids[..|ids| - 1])
  }

  lemma {:induction false} LeavesConcat(a: seq<Provider>, b: seq<Provider>)
    ensures LeavesOf(a + b) == LeavesOf(a) + LeavesOf(b)
  {
    if a == [] {
      assert a + b == b;
    } else {
      assert (a + b)[1..] == a[1..] + b;
      LeavesConcat(a[1..], b);
    }
  }

  lemma ShutLast(ids: seq<nat>)
    requires ids != []
    ensures ShutCalls(ids) == [Shut(ids[|ids| - 1])] + ShutCalls(ids[..|ids| - 1])
  {
  }

  lemma {:induction false} ShutConcat(a: seq<nat>, b: seq<nat>)
    ensures ShutCalls(a + b) == ShutCalls(b) + ShutCalls(a)
  {
    if b == [] {
      assert a + b == a;
    } else {
      var last := |b| - 1;
      assert (a + b)[..|a + b| - 1] == a + b[..last] && (a + b)[|a + b| - 1] == b[last];
      ShutConcat(a, b[..last]);
      ShutLast(a + b);
      ShutLast(b);
      hide ShutCalls;
      var call, late, early := [Shut(b[last])], ShutCalls(b[..last]), ShutCalls(a);
      assert call + (late + early) == (call + late) + early;
    }
  }

  lemma {:induction false} FlatLeaves(ids: seq<nat>)
    ensures LeavesOf(Flat(ids)) == ids
  {
    if ids != [] {
      assert Flat(ids)[1..] == Flat(ids[1..]);
      FlatLeaves(ids[1..]);
    }
  }

  /** Whatever the nesting and whatever fails, shutting down calls every leaf once, in reverse order. */
  lemma {:induction false} StopAllCalls(o: Oracle, ps: seq<Provider>, ctx: Ctx)
    ensures StopAll(o, ps, ctx).log == ShutCalls(LeavesOf(ps))
    decreases ps, 0
  {
    if ps != [] {
      var last := |ps| - 1;
      StopOneCalls(o, ps[last], ctx);
      var p := StopOne(o, ps[last], ctx);
      StopAllCalls(o, ps[..last], if p.result.Some? then p.result.value else ctx);
      assert ps == ps[..last] + [ps[last]];
      LeavesConcat(ps[..last], [ps[last]]);
      SingleLeaves(ps[last]);
      ShutConcat(LeavesOf(ps[..last]), Leaves(ps[last]));
    }
  }

  lemma SingleLeaves(p: Provider)
    ensures LeavesOf([p]) == Leaves(p)
  {
    assert [p][1..] == [];
  }

  lemma {:induction false} StopOneCalls(o: Oracle, p: Provider, ctx: Ctx)
    ensures StopOne(o, p, ctx).log == ShutCalls(Leaves(p))
    decreases p, 1
  {
    match p
    case Leaf(id) =>
      assert ShutCalls([id]) == [Shut(id)] + ShutCalls([id][..0]);
    case Runner(children) => StopAllCalls(o, children, ctx);
  }

  /** Shutting down a plain list of leaves: each is given the context of the last that succeeded. */
  function StopLeaves(o: Oracle, ids: seq<nat>, ctx: Ctx): Stopped {
    if ids == [] then Stopped([], ctx, true) else
      var last := |ids| - 1;
      var next := o.shut(ids[last], ctx);
      var rest := StopLeaves(o, ids[..last], if next.Some? then next.value else ctx);
      Stopped([Shut(ids[last])] + rest.log, rest.ctx, rest.ok && next.Some?)
  }

  lemma {:induction false} StopLeavesConcat(o: Oracle, a: seq<nat>, b: seq<nat>, ctx: Ctx)
    ensures var late := StopLeaves(o, b, ctx);
            var all := StopLeaves(o, a + b, ctx);
            var early := StopLeaves(o, a, late.ctx);
            all.ctx == early.ctx && all.ok == (late.ok && early.ok)
  {
    if b == [] {
      assert a + b == a;
    } else {
      var last := |b| - 1;
      assert (a + b)[..|a| + last] == a + b[..last] && (a + b)[|a| + last] == b[last];
      var next := o.shut(b[last], ctx);
      StopLeavesConcat(o, a, b[..last], if next.Some? then next.value else ctx);
    }
  }

  /** A tree stops without failure exactly when its leaves in a row do, and then ends in the same context. */
  ghost predicate StopsAlike(ok: bool, ctx: Ctx, flat: Stopped) {
    ok == flat.ok && (ok ==> ctx == flat.ctx)
  }

  lemma {:induction false} StopAllResult(o: Oracle, ps: seq<Provider>, ctx: Ctx)
    ensures var all := StopAll(o, ps, ctx);
            StopsAlike(all.ok, all.ctx, StopLeaves(o, LeavesOf(ps), ctx))
    decreases ps, 0
  {
    if ps != [] {
      var last := |ps| - 1;
      var p := StopOne(o, ps[last], ctx);
      StopOneResult(o, ps[last], ctx);
      StopAllResult(o, ps[..last], if p.result.Some? then p.result.value else ctx);
      assert ps == ps[..last] + [ps[last]];
      LeavesConcat(ps[..last], [ps[last]]);
      SingleLeaves(ps[last]);
      StopLeavesConcat(o, LeavesOf(ps[..last]), Leaves(ps[last]), ctx);
    }
  }

  lemma {:induction false} StopOneResult(o: Oracle, p: Provider, ctx: Ctx)
    ensures var flat := StopLeaves(o, Leaves(p), ctx);
            StopOne(o, p, ctx).result == if flat.ok then Some(flat.ctx) else None
    decreases p, 1
  {
    match p
    case Leaf(id) =>
      assert [id][..0] == [];
    case Runner(children) => StopAllResult(o, children, ctx);
  }

  /** Bootstrapping a plain list of leaves. */
  function BootLeaves(o: Oracle, ids: seq<nat>, ctx: Ctx): (r: Booted)
    ensures r.started <= |ids| && (r.ok <==> r.started == |ids|)
  {
    if ids == [] then Booted([], ctx, 0, true) else
      var next := o.boot(ids[0], ctx);
      var call := Boot(ids[0], ctx, next.Some?);
      if next.None? then Booted([call], ctx, 0, false) else
        var rest := BootLeaves(o, ids[1..], next.value);
        Booted([call] + rest.log, rest.ctx, rest.started + 1, rest.ok)
  }

  lemma {:induction false} BootLeavesConcat(o: Oracle, a: seq<nat>, b: seq<nat>, ctx: Ctx)
    ensures var first := BootLeaves(o, a, ctx);
            var all := BootLeaves(o, a + b, ctx);
            if first.ok then
              var rest := BootLeaves(o, b, first.ctx);
              all == Booted(first.log + rest.log, rest.ctx, |a| + rest.started, rest.ok)
            else all == first
  {
    if a == [] {
      assert a + b == b;
    } else {
      assert (a + b)[0] == a[0] && (a + b)[1..] == a[1..] + b;
      var next := o.boot(a[0], ctx);
      if next.Some? {
        BootLeavesConcat(o, a[1..], b, next.value);
        var first := BootLeaves(o, a[1..], next.value);
        if first.ok {
          var rest := BootLeaves(o, b, first.ctx);
          var call := [Boot(a[0], ctx, true)];
          assert call + (first.log + rest.log) == (call + first.log) + rest.log;
        }
      }
    }
  }

  /**
   Starting any tree makes the calls of starting its leaves in a row; if one fails, what follows is the
   shutdown, in reverse order, of exactly the leaves that had started, across all levels of nesting.
   */
  lemma {:induction false} BootOneCalls(o: Oracle, p: Provider, ctx: Ctx)
    ensures var flat := BootLeaves(o, Leaves(p), ctx);
            BootOne(o, p, ctx) ==
            if flat.ok then Outcome(flat.log, Some(flat.ctx))
            else Outcome(flat.log + ShutCalls(Leaves(p)[..flat.started]), None)
    decreases p, 1
  {
    match p
    case Leaf(id) =>
      assert BootLeaves(o, [id][1..], if o.boot(id, ctx).Some? then o.boot(id, ctx).value else ctx).log == [];
    case Runner(children) =>
      BootAllCalls(o, children, ctx);
      var b := BootAll(o, children, ctx);
      if !b.ok {
        StopAllCalls(o, children[..b.started], b.ctx);
      }
  }

  /**
   Starting a list of providers agrees with starting their leaves in a row. If one provider fails it has
   undone its own part; undoing the ones before it undoes exactly the leaves that had started.
   */
  ghost predicate StartsAlike(b: Booted, flat: Booted, ps: seq<Provider>, ids: seq<nat>)
    requires b.started <= |ps| && flat.started <= |ids|
  {
    && b.ok == flat.ok
    && (if b.ok then b.log == flat.log && b.ctx == flat.ctx
        else b.log + ShutCalls(LeavesOf(ps[..b.started])) == flat.log + ShutCalls(ids[..flat.started]))
  }

  lemma {:induction false} BootAllCalls(o: Oracle, ps: seq<Provider>, ctx: Ctx)
    ensures StartsAlike(BootAll(o, ps, ctx), BootLeaves(o, LeavesOf(ps), ctx), ps, LeavesOf(ps))
    decreases ps, 0
  {
    if ps != [] {
      BootOneCalls(o, ps[0], ctx);
      var first := BootLeaves(o, Leaves(ps[0]), ctx);
      if first.ok {
        BootAllCalls(o, ps[1..], first.ctx);
        RestDecides(o, ps, ctx);
      } else {
        FirstFails(o, ps, ctx);
      }
    }
  }

  lemma {:induction false} FirstFails(o: Oracle, ps: seq<Provider>, ctx: Ctx)
    requires ps != [] && !BootLeaves(o, Leaves(ps[0]), ctx).ok
    requires var first := BootLeaves(o, Leaves(ps[0]), ctx);
             BootOne(o, ps[0], ctx) == Outcome(first.log + ShutCalls(Leaves(ps[0])[..first.started]), None)
    ensures StartsAlike(BootAll(o, ps, ctx), BootLeaves(o, LeavesOf(ps), ctx), ps, LeavesOf(ps))
  {
    var own, others := Leaves(ps[0]), LeavesOf(ps[1..]);
    BootLeavesConcat(o, own, others, ctx);
    var first := BootLeaves(o, own, ctx);
    assert (own + others)[..first.started] == own[..first.started];
    assert LeavesOf(ps[..0]) == [];
  }

  lemma {:induction false} RestDecides(o: Oracle, ps: seq<Provider>, ctx: Ctx)
    requires ps != [] && BootLeaves(o, Leaves(ps[0]), ctx).ok
    requires var first := BootLeaves(o, Leaves(ps[0]), ctx);
             && BootOne(o, ps[0], ctx) == Outcome(first.log, Some(first.ctx))
             && StartsAlike(BootAll(o, ps[1..], first.ctx), BootLeaves(o, LeavesOf(ps[1..]), first.ctx),
                            ps[1..], LeavesOf(ps[1..]))
    ensures StartsAlike(BootAll(o, ps, ctx), BootLeaves(o, LeavesOf(ps), ctx), ps, LeavesOf(ps))
  {
    hide ShutCalls, BootLeaves, Leaves, BootOne;
    var own, others := Leaves(ps[0]), LeavesOf(ps[1..]);
    BootLeavesConcat(o, own, others, ctx);
    var first := BootLeaves(o, own, ctx);
    var rest, flat := BootAll(o, ps[1..], first.ctx), BootLeaves(o, others, first.ctx);
    if !rest.ok {
      UndoSplits(own, ps, rest.started);
      ShutConcat(own, others[..flat.started]);
      assert (own + others)[..|own| + flat.started] == own + others[..flat.started];
      UndoAgrees(first.log, rest.log, ShutCalls(LeavesOf(ps[1..][..rest.started])),
                 flat.log, ShutCalls(others[..flat.started]), ShutCalls(own));
    }
  }

  lemma UndoAgrees(first: seq<Call>, log: seq<Call>, undo: seq<Call>, log': seq<Call>, undo': seq<Call>, own: seq<Call>)
    requires log + undo == log' + undo'
    ensures (first + log) + (undo + own) == (first + log') + (undo' + own)
  {
    calc {
      (first + log) + (undo + own);
      first + (log + undo) + own;
      first + (log' + undo') + own;
      (first + log') + (undo' + own);
    }
  }

  lemma UndoSplits(own: seq<nat>, ps: seq<Provider>, n: nat)
    requires ps != [] && own == Leaves(ps[0]) && n <= |ps| - 1
    ensures ShutCalls(LeavesOf(ps[..n + 1])) == ShutCalls(LeavesOf(ps[1..][..n])) + ShutCalls(own)
  {
    assert ps[..n + 1][1..] == ps[1..][..n];
    ShutConcat(own, LeavesOf(ps[1..][..n]));
  }

  /**
   A tree of nested runners makes the same sequence of leaf bootstrap and shutdown calls as one runner
   over its flattened providers, on success, on failure with its rollback, and at shutdown, and ends each
   in the same context or in failure alike.
   */
  lemma NestingIsTransparent(o: Oracle, children: seq<Provider>, ctx: Ctx)
    ensures var nested, flat := Runner(children), Runner(Flat(LeavesOf(children)));
            && BootOne(o, nested, ctx) == BootOne(o, flat, ctx)
            && StopOne(o, nested, ctx) == StopOne(o, flat, ctx)
  {
    var nested, flat := Runner(children), Runner(Flat(LeavesOf(children)));
    FlatLeaves(LeavesOf(children));
    BootOneCalls(o, nested, ctx);
    BootOneCalls(o, flat, ctx);
    StopOneCalls(o, nested, ctx);
    StopOneCalls(o, flat, ctx);
    StopOneResult(o, nested, ctx);
    StopOneResult(o, flat, ctx);
  }
}
