/** What holds after every run of the miner, and why a verdict does not depend on the run. */
module Runs {
  import opened Blocks
  import opened Mining
  import opened Chains
  import opened FileSystemState
  import opened AccountsState
  import opened Conservation
  import opened Overlay
  import opened Deltas
  import opened Ledger
  import opened Safety
  import F = JobFilter

  // ---------- Every run ----------

  // Confirmation thresholds that never hide a block.
  predicate NoThresholds(cfg: Config) {
    cfg.confirmsCreate <= 0 && cfg.confirmsAppend <= 0
  }

  lemma NoThresholdsIsOrderly(cfg: Config, steps: seq<Step>)
    requires NoThresholds(cfg)
    ensures OrderlyRun(cfg, steps)
  {
    forall i | 0 <= i < |steps| ensures Orderly(cfg, Run(cfg, steps[..i]), steps[i]) {
      AlwaysOrderly(cfg, Run(cfg, steps[..i]), steps[i]);
    }
  }

  lemma AlwaysOrderly(cfg: Config, l: Ledger, step: Step)
    requires NoThresholds(cfg)
    ensures Orderly(cfg, l, step)
  {
    var id := Target(step);
    if id in l.chains {
      SettledRebuildsAsReplay(cfg, l.chains[id]);
    }
  }

  // The node whose state a step loads.
  function Target(step: Step): Digest {
    match step
    case AddBlock(b) => b.prev
    case CheckBlock(b) => b.prev
    case FilterJobs(ops, head) => head
  }

  // Whenever a step loads a node that is not cached, the node is a genesis block.
  ghost predicate RebuildsFromGenesisOnly(cfg: Config, steps: seq<Step>) {
    forall i :: 0 <= i < |steps| ==>
      var l, id := Run(cfg, steps[..i]), Target(steps[i]);
      id in l.chains && !CachedUnder(l, id) ==> |l.chains[id]| == 1
  }

  lemma GenesisRebuildsAsReplay(cfg: Config, c: seq<Block>)
    requires GenesisFirst(c) && |c| == 1
    ensures RebuildsAsReplay(cfg, c)
  {
    assert RecordsOf(c[0]) == [];
    SettledRebuildsAsReplay(cfg, c);
  }

  // Runs that never rebuild the cache after genesis are orderly, whatever the thresholds are.
  lemma {:induction false} GenesisRebuildsAreOrderly(cfg: Config, steps: seq<Step>)
    requires RebuildsFromGenesisOnly(cfg, steps)
    ensures OrderlyRun(cfg, steps)
  {
    if steps != [] {
      var init, last := steps[..|steps| - 1], steps[|steps| - 1];
      forall i | 0 <= i < |init|
        ensures init[..i] == steps[..i] && init[i] == steps[i]
      {
      }
      GenesisRebuildsAreOrderly(cfg, init);
      RunIsSafe(cfg, init);
      var l, id := Run(cfg, init), Target(last);
      if id in l.chains && !CachedUnder(l, id) {
        assert LinkedAt(cfg, l.chains, id);
        GenesisRebuildsAsReplay(cfg, l.chains[id]);
      }
      OrderlySnoc(cfg, steps);
    }
  }

  lemma OrderlySnoc(cfg: Config, steps: seq<Step>)
    requires steps != [] && OrderlyRun(cfg, steps[..|steps| - 1])
    requires Orderly(cfg, Run(cfg, steps[..|steps| - 1]), steps[|steps| - 1])
    ensures OrderlyRun(cfg, steps)
  {
    var init := steps[..|steps| - 1];
    forall i | 0 <= i < |steps| ensures Orderly(cfg, Run(cfg, steps[..i]), steps[i]) {
      if i < |init| {
        assert init[..i] == steps[..i];
        assert Orderly(cfg, Run(cfg, init[..i]), init[i]);
      }
    }
  }

  lemma {:induction false} FirstChain(cfg: Config, chains: map<Digest, seq<Block>>, id: Digest) returns (g: Digest)
    requires id in chains && forall i :: i in chains ==> LinkedAt(cfg, chains, i)
    ensures g in chains && |chains[g]| == 1 && chains[id] != [] && chains[g][0] == chains[id][0]
    decreases |chains[id]|
  {
    assert LinkedAt(cfg, chains, id);
    var c := chains[id];
    if |c| == 1 {
      g := id;
    } else {
      g := FirstChain(cfg, chains, c[|c| - 1].prev);
    }
  }

  // Every chain starts with the same genesis block, which alone has height 0.
  ghost predicate StartsEveryChain(chains: map<Digest, seq<Block>>, g: Digest) {
    && g in chains && |chains[g]| == 1 && chains[g][0].kind.Genesis?
    && forall id :: id in chains ==>
         chains[id] != [] && chains[id][0] == chains[g][0] && (|chains[id]| == 1 ==> id == g)
  }

  lemma TreeHasOneGenesis(cfg: Config, chains: map<Digest, seq<Block>>)
    requires Linked(cfg, chains)
    ensures chains == map[] || exists g :: StartsEveryChain(chains, g)
  {
    if chains != map[] {
      var x :| x in chains;
      var g := FirstChain(cfg, chains, x);
      assert LinkedAt(cfg, chains, g);
      forall id | id in chains
        ensures chains[id] != [] && chains[id][0] == chains[g][0] && (|chains[id]| == 1 ==> id == g)
      {
        var h := FirstChain(cfg, chains, id);
      }
      assert StartsEveryChain(chains, g);
    }
  }

  // After any sequence of additions, checks and job filterings, accepted or rejected, on any fork:
  // the tree has one genesis block, which is its only node of height 0, no chain has another one, and
  // every chain within the limits replays without error.
  lemma EveryRunIsSafe(cfg: Config, steps: seq<Step>)
    requires NoThresholds(cfg) || OrderlyRun(cfg, steps)
    ensures var chains := Run(cfg, steps).chains;
            && (chains == map[] || exists g :: StartsEveryChain(chains, g))
            && (forall id :: id in chains ==> GenesisFirst(chains[id]))
            && (forall id :: id in chains && Plain(cfg, chains[id]) ==> Replays(cfg, chains[id]))
  {
    if NoThresholds(cfg) {
      NoThresholdsIsOrderly(cfg, steps);
    }
    RunIsSafe(cfg, steps);
    var chains := Run(cfg, steps).chains;
    TreeHasOneGenesis(cfg, chains);
    forall id | id in chains ensures GenesisFirst(chains[id]) {
      assert LinkedAt(cfg, chains, id);
    }
  }

  // For the chains of the tree whose NoOp blocks are empty, the limits are exactly what replay needs.
  lemma ReplaysIffPlain(cfg: Config, steps: seq<Step>, id: Digest)
    requires NoThresholds(cfg) || OrderlyRun(cfg, steps)
    requires id in Run(cfg, steps).chains
    requires forall i :: 0 <= i < |Run(cfg, steps).chains[id]| ==> NoOpIsEmpty(Run(cfg, steps).chains[id][i])
    ensures Replays(cfg, Run(cfg, steps).chains[id]) <==> Plain(cfg, Run(cfg, steps).chains[id])
  {
    hide WithinLimits;
    EveryRunIsSafe(cfg, steps);
    var c := Run(cfg, steps).chains[id];
    if Replays(cfg, c) {
      forall i | 0 <= i < |c| ensures NoOpIsEmpty(c[i]) && WithinLimits(cfg, c, i + 1) {
        BlockIsWithinLimits(cfg, c, i);
      }
    }
  }

  lemma {:induction false} BalancesUpToSome(c: seq<Block>, i: nat, n: nat, fees: Fees)
    requires i <= n <= |c| && BalancesUpTo(c, n, fees).Some?
    ensures BalancesUpTo(c, i, fees).Some?
  {
    if BalancesUpTo(c, i, fees).None? {
      BalancesUpToFails(c, i, n, fees);
    }
  }

  lemma BlockIsWithinLimits(cfg: Config, c: seq<Block>, i: nat)
    requires i < |c| && Replays(cfg, c)
    ensures WithinLimits(cfg, c, i + 1)
  {
    var b, log := c[i], LogBetween(c, 0, i);
    FullFilesystemIsReplayed(c);
    LogSplit(c, 0, i + 1, |c|);
    ApplyOpsConcat(map[], LogBetween(c, 0, i + 1), LogBetween(c, i + 1, |c|), true, true);
    assert LogBetween(c, 0, i + 1) == log + RecordsOf(b);
    ApplyOpsConcat(map[], log, RecordsOf(b), true, true);
    ReplayHasNoLastRecord(Replayed(log).value, RecordsOf(b));
    BalancesUpToSome(c, i + 1, |c|, cfg.fees);
    BalancesUpToSome(c, i, |c|, cfg.fees);
    if b.kind.Regular? {
      AccountsAreMiners(c, i, cfg.fees);
      var start := Award(BalancesUpTo(c, i, cfg.fees).value, b.minerId, cfg.fees.opReward);
      PaidFromMore(log, Miners(c, i), start.Keys);
      assert AddDeltas(start, map[]) == start;
      DeltasAgreeWithReplay(start, b.records, log, map[], cfg.fees);
    }
  }

  // ---------- No verdict depends on history ----------

  lemma OpSeesOnlyShape(x: Files, y: Files, s: FsScan, t: FsScan, op: BlockOp)
    requires SameShape(x, y) && SameShape(s.entries, t.entries) && s.deleted == t.deleted
    ensures var a, b := OverlayOp(x, s.entries, s.deleted, op), OverlayOp(y, t.entries, t.deleted, op);
            (a.Some? <==> b.Some?) && (a.Some? ==> SameShape(a.value.0, b.value.0) && a.value.1 == b.value.1)
  {
  }

  lemma {:induction false} ScanSeesOnlyShape(x: Files, y: Files, ops: seq<BlockOp>)
    requires SameShape(x, y)
    ensures var s, t := ScanFs(x, ops), ScanFs(y, ops);
            s.ok == t.ok && s.deleted == t.deleted && s.valid == t.valid && SameShape(s.entries, t.entries)
  {
    if ops != [] {
      var init := ops[..|ops| - 1];
      ScanSeesOnlyShape(x, y, init);
      OpSeesOnlyShape(x, y, ScanFs(x, init), ScanFs(y, init), ops[|ops| - 1]);
    }
  }

  // Two caches for the same chain give the same verdict on every block.
  lemma CachesAgree(cfg: Config, c: seq<Block>, x: Cache, y: Cache, b: Block)
    requires CacheIs(cfg, x, c) && CacheIs(cfg, y, c)
    ensures Judge(cfg, x, b, Log(c)).Some? <==> Judge(cfg, y, b, Log(c)).Some?
  {
    ScanSeesOnlyShape(x.files, y.files, b.records);
  }

  // The state that a rebuild would find on a chain that replays.
  function ReplayedState(cfg: Config, c: seq<Block>): Cache
    requires Balances(c, cfg.fees).Some? && FullFilesystem(c).Some? && c != []
  {
    Cache(IdOf(cfg, c[|c| - 1]), Balances(c, cfg.fees).value, FullFilesystem(c).value)
  }

  // Whether a block may extend a chain, said of the chain and the block alone.
  ghost predicate Extends(cfg: Config, c: seq<Block>, b: Block) {
    && c != [] && !b.kind.Genesis?
    && ValidBlock(cfg.md5, b, cfg.opZeros, cfg.noOpZeros)
    && Replays(cfg, c)
    && Judge(cfg, ReplayedState(cfg, c), b, Log(c)).Some?
  }

  // Whether a block that is not in the tree is accepted on a chain within the limits depends on that
  // chain and the block only, not on what was added, checked or filtered before.
  lemma VerdictIsHistoryIndependent(cfg: Config, l: Ledger, b: Block)
    requires Safe(cfg, l) && b.prev in l.chains && Plain(cfg, l.chains[b.prev]) && LoadsAsReplay(cfg, l, b.prev)
    requires IdOf(cfg, b) !in l.chains && !b.kind.Genesis?
    ensures Add(cfg, l, b).1 <==> Extends(cfg, l.chains[b.prev], b)
  {
    var c := l.chains[b.prev];
    LoadIsReplay(cfg, l, b.prev);
    assert c != [] by {
      assert LinkedAt(cfg, l.chains, b.prev);
    }
    CachesAgree(cfg, c, Load(cfg, l, b.prev).value, ReplayedState(cfg, c), b);
  }

  // For a block within the limits the verdict is: proof of work, replay of the extended chain, and no
  // append to a file that is full in the parent.
  lemma ExtendsIffReplays(cfg: Config, c: seq<Block>, b: Block)
    requires c != [] && Replays(cfg, c) && !b.kind.Genesis? && NoOpIsEmpty(b)
    ensures Extends(cfg, c, b) && WithinLimits(cfg, c + [b], |c| + 1)
       <==> ValidBlock(cfg.md5, b, cfg.opZeros, cfg.noOpZeros) && Replays(cfg, c + [b])
            && NoAppendToFull(FullFilesystem(c).value, b.records)
  {
    JudgeIsReplay(cfg, c, ReplayedState(cfg, c), b);
  }

  // The pending jobs that survive the filter on a head make a block that the tree accepts on that
  // head, once it carries the proof of work.
  lemma FilteredJobsMakeAnAcceptedBlock(cfg: Config, l: Ledger, head: Digest, ops: seq<BlockOp>, b: Block)
    requires head in l.chains && ops != [] && Load(cfg, l, head).Some? && cfg.fees.opReward >= 0
    requires b.kind.Regular? && b.prev == head && b.records == ValidateJobSet(cfg, l, ops, head).1
    requires ValidBlock(cfg.md5, b, cfg.opZeros, cfg.noOpZeros) && IdOf(cfg, b) !in l.chains
    ensures Add(cfg, ValidateJobSet(cfg, l, ops, head).0, b).1
  {
    var state := Load(cfg, l, head).value;
    JobSet.MinedJobsPass(state.files, state.accounts, ops, Log(l.chains[head]), b.minerId, cfg.fees);
  }

  // Which pending jobs survive on a head, said of its chain and the jobs alone: what as many passes as
  // there are jobs keep, each judged by full replay of that chain.
  lemma JobsSurviveByReplay(cfg: Config, l: Ledger, head: Digest, ops: seq<BlockOp>)
    requires Safe(cfg, l) && head in l.chains && Plain(cfg, l.chains[head]) && LoadsAsReplay(cfg, l, head)
    requires NoLastRecord(ops)
    ensures var c := l.chains[head];
            && Replays(cfg, c)
            && ValidateJobSet(cfg, l, ops, head).1 ==
               F.KeptAfter(FullFilesystem(c).value, Balances(c, cfg.fees).value, ops, Log(c), cfg.fees, |ops|)
  {
    hide Safe, LoadsAsReplay, Plain, Balances, FullFilesystem, Load, SameShape, NoLastRecord;
    LoadIsReplay(cfg, l, head);
    var c, state := l.chains[head], Load(cfg, l, head).value;
    if ops != [] {
      F.SurvivingJobs(state.files, FullFilesystem(c).value, state.accounts, ops, Log(c), cfg.fees);
    }
  }
}
