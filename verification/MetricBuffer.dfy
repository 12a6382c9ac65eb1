/** The buffer object in front of the metric registry. */
module MetricBuffer {
  import opened Options
  import opened Replay
  import opened MetricState
  import opened MetricRegistry
  import opened MetricBufferRuns

  /** Only observations look at an exemplar, and info updates look at labels only. */
  lemma ApplyIgnores(env: Env, st: RegistryState, u: Update)
    ensures u.op != ObserveOp ==> Apply(env, st, u) == Apply(env, st, u.(exemplar := None))
    ensures u.op == InfoOp ==> Apply(env, st, u) == Apply(env, st, u.(value := 0.0, exemplar := None))
  {
  }

  class AsyncMetricBuffer {
    const registry: MetricRegistry
    const maxSize: nat
    const flushBatch: nat
    var q: seq<Update>
    var drops: nat

    ghost function Sys(): Buffer.System<RegistryState, Update>
      reads registry`aliases
    {
      MetricSystem(registry.Env(), maxSize, flushBatch)
    }

    ghost function View(): Buffer.BufferState<RegistryState, Update>
      reads this, registry, registry.policy
    {
      Buffer.BufferState(q, drops, registry.View())
    }

    constructor (registry: MetricRegistry, maxSize: int, flushBatch: int)
      ensures this.registry == registry && View() == Buffer.BufferState([], 0, registry.View())
      ensures this.maxSize == (if maxSize < 1 then 1 else maxSize)
      ensures this.flushBatch == (if flushBatch < 1 then 1 else flushBatch)
    {
      this.registry := registry;
      this.maxSize := if maxSize < 1 then 1 else maxSize;
      this.flushBatch := if flushBatch < 1 then 1 else flushBatch;
      q, drops := [], 0;
    }

    method Push(u: Update) returns (accepted: bool)
      modifies this, registry, registry.policy
      ensures View() == Buffer.Push(Sys(), old(View()), u) && Sys() == old(Sys())
      ensures accepted <==> |old(q)| < maxSize
      ensures accepted ==> q == old(q) + [u] && drops == old(drops) && registry.View() == old(registry.View())
      ensures !accepted ==> q == old(q) && drops == old(drops) + 1
      ensures registry.bufferDrops == old(registry.bufferDrops) + if accepted then 0 else 1
    {
      if |q| >= maxSize {
        drops := drops + 1;
        registry.RecordDrop();
        return false;
      }
      q := q + [u];
      return true;
    }

    /** The dispatch of one drained update. */
    method ApplyOne(u: Update)
      modifies registry, registry.policy
      ensures registry.View() == Apply(registry.Env(), old(registry.View()), u)
      ensures registry.aliases == old(registry.aliases)
    {
      ApplyIgnores(registry.Env(), registry.View(), u);
      match u.op
      case IncOp => registry.Inc(u.name, u.value, u.labels);
      case SetOp => registry.Set(u.name, u.value, u.labels);
      case ObserveOp => registry.Observe(u.name, u.value, u.labels, u.exemplar);
      case InfoOp => registry.SetInfo(u.name, u.labels);
    }

    method TakeBatch() returns (batch: seq<Update>)
      requires flushBatch >= 1
      modifies this`q
      ensures batch == old(q)[..Buffer.BatchSize(Sys(), old(q))] && q == old(q)[Buffer.BatchSize(Sys(), old(q))..]
      ensures batch + q == old(q) && |batch| == if |old(q)| < flushBatch then |old(q)| else flushBatch
    {
      batch := [];
      while q != [] && |batch| < flushBatch
        invariant |batch| <= flushBatch && |batch| <= |old(q)|
        invariant batch == old(q)[..|batch|] && q == old(q)[|batch|..]
        decreases |q|
      {
        batch, q := batch + [q[0]], q[1..];
      }
    }

    method ApplyBatch(batch: seq<Update>)
      modifies registry, registry.policy
      ensures registry.View() == ApplyAll(Applying(registry.Env()), old(registry.View()), batch)
      ensures registry.aliases == old(registry.aliases)
    {
      ghost var before, env := registry.View(), registry.Env();
      for i := 0 to |batch|
        invariant registry.Env() == env && registry.aliases == old(registry.aliases)
        invariant registry.View() == ApplyAll(Applying(env), before, batch[..i])
      {
        ApplyOne(batch[i]);
        ApplyAllNext(Applying(env), before, batch, i);
      }
      assert batch[..|batch|] == batch;
    }

    method DrainOnce() returns (n: nat)
      requires flushBatch >= 1
      modifies this`q, registry, registry.policy
      ensures View() == Buffer.Drain(Sys(), old(View())) && Sys() == old(Sys())
      ensures n == Buffer.BatchSize(Sys(), old(q))
      ensures n == (if |old(q)| < flushBatch then |old(q)| else flushBatch) && q == old(q)[n..]
      ensures registry.View() == ApplyAll(Applying(registry.Env()), old(registry.View()), old(q)[..n])
    {
      var batch := TakeBatch();
      ApplyBatch(batch);
      n := |batch|;
    }

    /** Drains until a drain takes nothing. */
    method Flush() returns (total: nat)
      requires flushBatch >= 1
      modifies this`q, registry, registry.policy
      ensures View() == Buffer.Flush(Sys(), old(View())) && Sys() == old(Sys())
      ensures total == |old(q)| && q == []
      ensures registry.View() == ApplyAll(Applying(registry.Env()), old(registry.View()), old(q))
    {
      total := 0;
      ghost var sys := Sys();
      while true
        invariant Sys() == sys && Buffer.Flush(sys, View()) == Buffer.Flush(sys, old(View()))
        invariant total + |q| == |old(q)|
        decreases |q|
      {
        Buffer.DrainKeepsFlush(sys, View());
        var n := DrainOnce();
        total := total + n;
        if n == 0 { break; }
      }
    }
  }
}
