/** The proof of work that every block of the tree carries, whatever the run. */
module WorkInRuns {
  import opened Blocks
  import opened ProofOfWork
  import opened Mining
  import opened Ledger

  // The digest of the block ends in as many zero bits as its own kind asks for.
  predicate CarriesWork(cfg: Config, b: Block) {
    match b.kind
    case Genesis => true
    case Regular => BigEndian(IdOf(cfg, b)) % Pow2(BitsOf(cfg.opZeros, 16)) == 0
    case NoOp => BigEndian(IdOf(cfg, b)) % Pow2(BitsOf(cfg.noOpZeros, 16)) == 0
  }

  // The hexadecimal digits that an even target names, bit for bit.
  lemma EvenTargetBits(z: nat)
    requires z % 2 == 0 && z <= 32
    ensures BitsOf(z, 16) == 4 * z
  {
  }

  lemma OddTargetBits(z: nat)
    requires z % 2 == 1 && z < 32
    ensures BitsOf(z, 16) == 4 * z + 1
  {
  }

  // A block that misses the target of its own kind is never added, and the attempt changes nothing.
  lemma WithoutWorkIsRefused(cfg: Config, l: Ledger, b: Block)
    requires !CarriesWork(cfg, b)
    ensures Add(cfg, l, b) == (l, false)
  {
  }

  ghost predicate AllCarryWork(cfg: Config, chains: map<Digest, seq<Block>>) {
    forall id :: id in chains ==> EachCarriesWork(cfg, chains[id])
  }

  ghost predicate EachCarriesWork(cfg: Config, c: seq<Block>) {
    forall i :: 0 <= i < |c| ==> CarriesWork(cfg, c[i])
  }

  lemma AddKeepsWork(cfg: Config, l: Ledger, b: Block)
    requires AllCarryWork(cfg, l.chains)
    ensures AllCarryWork(cfg, Add(cfg, l, b).0.chains)
  {
    hide Add;
    AddChangesOneChain(cfg, l, b);
    if Add(cfg, l, b).1 {
      if !CarriesWork(cfg, b) {
        WithoutWorkIsRefused(cfg, l, b);
      }
      assert EachCarriesWork(cfg, ChainOf(l, b));
    }
  }

  lemma OtherStepsKeepChains(cfg: Config, l: Ledger, step: Step)
    requires !step.AddBlock?
    ensures Next(cfg, l, step).chains == l.chains
  {
  }

  // After every run, orderly or not: each Regular block of each chain meets the target for operations,
  // and each NoOp block the target for NoOps.
  lemma {:induction false} EveryBlockCarriesWork(cfg: Config, steps: seq<Step>, id: Digest, i: nat)
    requires id in Run(cfg, steps).chains && i < |Run(cfg, steps).chains[id]|
    ensures var b := Run(cfg, steps).chains[id][i];
            && (b.kind.Regular? ==> BigEndian(IdOf(cfg, b)) % Pow2(BitsOf(cfg.opZeros, 16)) == 0)
            && (b.kind.NoOp? ==> BigEndian(IdOf(cfg, b)) % Pow2(BitsOf(cfg.noOpZeros, 16)) == 0)
  {
    RunCarriesWork(cfg, steps);
    assert EachCarriesWork(cfg, Run(cfg, steps).chains[id]);
    assert CarriesWork(cfg, Run(cfg, steps).chains[id][i]);
  }

  lemma {:induction false} RunCarriesWork(cfg: Config, steps: seq<Step>)
    ensures AllCarryWork(cfg, Run(cfg, steps).chains)
  {
    if steps != [] {
      var l, step := Run(cfg, steps[..|steps| - 1]), steps[|steps| - 1];
      RunCarriesWork(cfg, steps[..|steps| - 1]);
      match step
      case AddBlock(b) => AddKeepsWork(cfg, l, b);
      case _ => OtherStepsKeepChains(cfg, l, step);
    }
  }

  // The nonce search for the zeros of the block's own kind ends in a block that carries its work.
  lemma SearchGivesWork(cfg: Config, b: Block)
    requires !b.kind.Genesis?
    ensures Succeeds(cfg.md5, b, ZerosForKind(b.kind, cfg.opZeros, cfg.noOpZeros)) <==> CarriesWork(cfg, b)
  {
  }
}
