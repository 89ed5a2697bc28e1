/** Adding blocks whose ancestors are missing (miner/state/tree_manager.go, `TreeManager`). */
module TreeManager {
  import opened Wrappers
  import opened Sequences
  import opened Blocks
  import opened Chains
  import opened Mining
  import opened Safety
  import opened Runs
  import opened Divergence
  import L = Ledger
  import Q = Queue
  import Tree = MRootTree
  import T = BlockChainTree

  const MAX_ELEM_INQUEUE := 100

  // ---------- Cutting a line of descendants out of the queue ----------

  // Each block extends the one before it, and the first one extends the block with id `from`.
  ghost predicate IsLine(md5: Hasher, from: Digest, line: seq<Block>) {
    forall i :: 0 <= i < |line| ==> line[i].prev == EndOfLine(md5, from, line[..i])
  }

  function EndOfLine(md5: Hasher, from: Digest, line: seq<Block>): Digest {
    if line == [] then from else Id(md5, line[|line| - 1])
  }

  lemma EmptyLine(md5: Hasher, from: Digest)
    ensures IsLine(md5, from, []) && EndOfLine(md5, from, []) == from
  {
  }

  lemma LineSnoc(md5: Hasher, from: Digest, line: seq<Block>, b: Block)
    requires IsLine(md5, from, line) && b.prev == EndOfLine(md5, from, line)
    ensures IsLine(md5, from, line + [b]) && EndOfLine(md5, from, line + [b]) == Id(md5, b)
  {
    forall i | 0 <= i < |line + [b]| ensures (line + [b])[i].prev == EndOfLine(md5, from, (line + [b])[..i]) {
      assert (line + [b])[..i] == line[..i];
      assert line[..|line|] == line;
    }
  }

  lemma NothingMatches(queue: seq<Block>, id: Digest)
    requires !exists i :: 0 <= i < |queue| && ((b: Block) => b.prev == id)(queue[i])
    ensures NoneExtends(queue, id)
  {
    forall i | 0 <= i < |queue| ensures queue[i].prev != id {
      assert !((b: Block) => b.prev == id)(queue[i]);
    }
  }

  // Removes one line of queued descendants of a block, from parent to child: a queued block that
  // extends it, one that extends that, and so on, until no queued block extends the last one removed.
  // Other queued branches stay, in their order.
  method RemoveNodesStartingFrom(md5: Hasher, block: Block, q: Q.Queue<Block>) returns (r: bool, ghost line: seq<Block>)
    modifies q
    ensures !r
    ensures IsLine(md5, Id(md5, block), line)
    ensures multiset(old(q.Contents())) == multiset(q.Contents()) + multiset(line)
    ensures Subsequence(q.Contents(), old(q.Contents()))
    ensures NoneExtends(q.Contents(), EndOfLine(md5, Id(md5, block), line))
  {
    hide Subsequence, IsLine, EndOfLine, NoneExtends, Without, Q.IsVictim, Q.Arrivals, Id;
    SubsequenceOfItself(q.Contents());
    EmptyLine(md5, Id(md5, block));
    var parentId := Id(md5, block);
    line := [];
    var deleted := true;
    while deleted
      invariant parentId == EndOfLine(md5, Id(md5, block), line) && IsLine(md5, Id(md5, block), line)
      invariant multiset(old(q.Contents())) == multiset(q.Contents()) + multiset(line)
      invariant Subsequence(q.Contents(), old(q.Contents()))
      invariant !deleted ==> NoneExtends(q.Contents(), parentId)
      decreases |q.Contents()| + if deleted then 1 else 0
    {
      ghost var before := q.Contents();
      ghost var k;
      var victim;
      victim, k := q.Del((b: Block) => b.prev == parentId);
      deleted := victim.Some?;
      if deleted {
        WithoutIsOneLess(before, k);
        WithoutIsSubsequence(before, k);
        SubsequenceTransitive(q.Contents(), before, old(q.Contents()));
        parentId := Id(md5, victim.value);
        LineSnoc(md5, Id(md5, block), line, victim.value);
        line := line + [victim.value];
      } else {
        NothingMatches(before, parentId);
      }
    }
    r := false;
  }

  ghost predicate NoneExtends(queue: seq<Block>, id: Digest) {
    forall i :: 0 <= i < |queue| ==> queue[i].prev != id
  }

  // One line of descendants of the block with id `from` is gone, from parent to child, nothing that is
  // left extends its end, and everything else is left in its order.
  ghost predicate LineCut(md5: Hasher, from: Digest, before: seq<Block>, after: seq<Block>) {
    exists line: seq<Block> :: CutOf(md5, from, line, before, after)
  }

  ghost predicate CutOf(md5: Hasher, from: Digest, line: seq<Block>, before: seq<Block>, after: seq<Block>) {
    && IsLine(md5, from, line) && multiset(before) == multiset(after) + multiset(line)
    && Subsequence(after, before) && NoneExtends(after, EndOfLine(md5, from, line))
  }

  lemma LineStartsInQueue(md5: Hasher, from: Digest, line: seq<Block>, before: seq<Block>, after: seq<Block>)
    requires CutOf(md5, from, line, before, after) && line != []
    ensures line[0] in before && line[0].prev == from && multiset(after)[line[0]] < multiset(before)[line[0]]
  {
    assert line[0].prev == EndOfLine(md5, from, line[..0]) == from;
    assert line[0] in multiset(line) && line[0] in multiset(before);
  }

  // If nothing extends the block, nothing is cut.
  lemma NothingToCut(md5: Hasher, from: Digest, before: seq<Block>, after: seq<Block>)
    requires LineCut(md5, from, before, after) && NoneExtends(before, from)
    ensures after == before
  {
    var line: seq<Block> :| CutOf(md5, from, line, before, after);
    if line != [] {
      LineStartsInQueue(md5, from, line, before, after);
      assert false;
    }
    assert |multiset(before)| == |multiset(after)|;
    SubsequenceIsShorter(after, before);
  }

  // Otherwise something that extends it is cut.
  lemma SomethingIsCut(md5: Hasher, from: Digest, before: seq<Block>, after: seq<Block>)
    requires LineCut(md5, from, before, after) && !NoneExtends(before, from)
    ensures |after| < |before|
    ensures exists b: Block :: b in before && b.prev == from && multiset(after)[b] < multiset(before)[b]
  {
    var line: seq<Block> :| CutOf(md5, from, line, before, after);
    if line == [] {
      assert |multiset(before)| == |multiset(after)|;
      SubsequenceIsShorter(after, before);
      assert false;
    }
    LineStartsInQueue(md5, from, line, before, after);
    assert |multiset(before)| == |multiset(after)| + |multiset(line)|;
  }

  // ---------- Adding one block ----------

  ghost predicate Queued(md5: Hasher, queue: seq<Block>, id: Digest) {
    exists i :: 0 <= i < |queue| && Id(md5, queue[i]) == id
  }

  // A block goes into the tree when its parent is there, or when it is a genesis block; otherwise
  // into the queue.
  predicate GoesToTree(l: L.Ledger, b: Block) {
    b.prev in l.chains || b.kind.Genesis?
  }

  // The tree after a call for a block that goes there, and whether the call is free of errors.
  function AddKnown(cfg: L.Config, l: L.Ledger, b: Block): (L.Ledger, bool) {
    if b.prev in l.chains && L.IdOf(cfg, b) in l.chains then (l, true) else L.Add(cfg, l, b)
  }

  // The queue after a block with an unknown parent: it is queued once, and a full queue is emptied first.
  ghost function Deferred(md5: Hasher, b: Block, queue: seq<Block>): seq<Block> {
    var kept := if |queue| > MAX_ELEM_INQUEUE then [] else queue;
    if Queued(md5, kept, Id(md5, b)) then kept else kept + [b]
  }

  // No two queued blocks share an id.
  ghost predicate QueuedOnce(md5: Hasher, queue: seq<Block>) {
    forall i, j :: 0 <= i < j < |queue| ==> Id(md5, queue[i]) != Id(md5, queue[j])
  }

  // After a call for an orphan its id is queued. With at most 100 blocks queued before, they stay where
  // they are, and the orphan comes last unless its id was there; with more it is alone.
  lemma OrphanIsQueued(md5: Hasher, b: Block, queue: seq<Block>)
    ensures var after := Deferred(md5, b, queue);
            && (exists i :: 0 <= i < |after| && Id(md5, after[i]) == Id(md5, b))
            && (|queue| <= 100 && (exists i :: 0 <= i < |queue| && Id(md5, queue[i]) == Id(md5, b)) ==> after == queue)
            && (|queue| <= 100 && (forall i :: 0 <= i < |queue| ==> Id(md5, queue[i]) != Id(md5, b)) ==>
                  after == queue + [b])
            && (|queue| > 100 ==> after == [b])
            && (QueuedOnce(md5, queue) ==> QueuedOnce(md5, after)) && (|queue| <= 101 ==> |after| <= 101)
  {
    var after := Deferred(md5, b, queue);
    var kept := if |queue| > MAX_ELEM_INQUEUE then [] else queue;
    if !Queued(md5, kept, Id(md5, b)) {
      assert after[|kept|] == b;
    }
  }

  // A block that is stored already gives no error and changes neither the tree nor the queue.
  lemma StoredBlockIsKnown(cfg: L.Config, b: Block, l: L.Ledger, queue: seq<Block>,
                           after: L.Ledger, queueAfter: seq<Block>, ok: bool)
    requires L.IdOf(cfg, b) in l.chains && b.prev in l.chains
    requires AddedOrDeferred(cfg, b, l, queue, after, queueAfter, ok)
    ensures ok && after == l && queueAfter == queue
  {
  }

  // A genesis block holds its own id in the place of its parent's, so the stored one is answered with
  // true, and any other one is refused once the tree is not empty.
  lemma GenesisAnswers(cfg: L.Config, b: Block, l: L.Ledger)
    requires b.kind.Genesis? && l.chains != map[]
    ensures GoesToTree(l, b) && AddKnown(cfg, l, b) == (l, L.IdOf(cfg, b) in l.chains)
  {
  }

  // What `AddBlock` does to the tree and the queue.
  ghost predicate AddedOrDeferred(cfg: L.Config, b: Block, l: L.Ledger, queue: seq<Block>, after: L.Ledger,
                                  queueAfter: seq<Block>, ok: bool) {
    if GoesToTree(l, b) then (after, ok) == AddKnown(cfg, l, b) && queueAfter == queue
    else ok && after == l && queueAfter == Deferred(cfg.md5, b, queue)
  }

  // ---------- Fetching missing ancestors ----------

  // A remote store that answers with the block that was asked for, and whose chains are finite.
  ghost predicate WellFounded(cfg: L.Config, remote: map<Digest, Block>, rank: Digest -> nat) {
    forall id :: id in remote ==>
      && L.IdOf(cfg, remote[id]) == id
      && (!remote[id].kind.Genesis? && remote[id].prev in remote ==> rank(remote[id].prev) < rank(id))
  }

  ghost function Distance(remote: map<Digest, Block>, rank: Digest -> nat, b: Block): nat {
    if b.kind.Genesis? || b.prev !in remote then 0 else rank(b.prev) + 1
  }

  // What one run of `blockAdderHelper` does to the tree, and its answer. The answer for a block whose
  // parent had to be fetched is the answer for the parent.
  ghost function Help(cfg: L.Config, remote: map<Digest, Block>, rank: Digest -> nat, l: L.Ledger, queue: seq<Block>,
                      b: Block): (L.Ledger, bool)
    requires WellFounded(cfg, remote, rank)
    decreases Distance(remote, rank, b)
  {
    if GoesToTree(l, b) then AddKnown(cfg, l, b)
    else if Queued(cfg.md5, queue, b.prev) then (l, true)
    else if b.prev !in remote then (l, false)
    else
      var (mid, ok) := Help(cfg, remote, rank, l, queue, remote[b.prev]);
      (if ok then AfterParent(cfg, mid, b) else mid, ok)
  }

  // Every addition of the run finds the cache or rebuilds it as full replay would.
  ghost predicate HelpOrderly(cfg: L.Config, remote: map<Digest, Block>, rank: Digest -> nat, l: L.Ledger,
                              queue: seq<Block>, b: Block)
    requires WellFounded(cfg, remote, rank)
    decreases Distance(remote, rank, b)
  {
    if GoesToTree(l, b) then LoadsAsReplay(cfg, l, b.prev)
    else if Queued(cfg.md5, queue, b.prev) || b.prev !in remote then true
    else
      && HelpOrderly(cfg, remote, rank, l, queue, remote[b.prev])
      && var (mid, ok) := Help(cfg, remote, rank, l, queue, remote[b.prev]);
         ok && GoesToTree(mid, b) ==> LoadsAsReplay(cfg, mid, b.prev)
  }

  lemma {:induction false} NoThresholdsHelpIsOrderly(cfg: L.Config, remote: map<Digest, Block>, rank: Digest -> nat,
                                                     l: L.Ledger, queue: seq<Block>, b: Block)
    requires WellFounded(cfg, remote, rank) && NoThresholds(cfg)
    ensures HelpOrderly(cfg, remote, rank, l, queue, b)
    decreases Distance(remote, rank, b)
  {
    AlwaysOrderly(cfg, l, L.AddBlock(b));
    if !GoesToTree(l, b) && !Queued(cfg.md5, queue, b.prev) && b.prev in remote {
      NoThresholdsHelpIsOrderly(cfg, remote, rank, l, queue, remote[b.prev]);
      AlwaysOrderly(cfg, Help(cfg, remote, rank, l, queue, remote[b.prev]).0, L.AddBlock(b));
    }
  }

  // The tree once the parent was dealt with; whether the block is accepted is not looked at.
  function AfterParent(cfg: L.Config, mid: L.Ledger, b: Block): L.Ledger {
    if GoesToTree(mid, b) then AddKnown(cfg, mid, b).0 else mid
  }

  // The queue after a run that answers true.
  ghost function HelpQueue(cfg: L.Config, remote: map<Digest, Block>, rank: Digest -> nat, l: L.Ledger,
                           queue: seq<Block>, b: Block): seq<Block>
    requires WellFounded(cfg, remote, rank)
    decreases Distance(remote, rank, b)
  {
    if GoesToTree(l, b) then queue
    else if Queued(cfg.md5, queue, b.prev) then Deferred(cfg.md5, b, queue)
    else if b.prev !in remote then queue
    else
      var mid, queueMid := Help(cfg, remote, rank, l, queue, remote[b.prev]).0,
                           HelpQueue(cfg, remote, rank, l, queue, remote[b.prev]);
      if GoesToTree(mid, b) then queueMid else Deferred(cfg.md5, b, queueMid)
  }

  lemma DeferredIsQueued(md5: Hasher, b: Block, queue: seq<Block>)
    ensures Queued(md5, Deferred(md5, b, queue), Id(md5, b))
  {
    OrphanIsQueued(md5, b, queue);
  }

  // The answer: true without any change for a block that is stored, true for a block whose parent is
  // queued, which is queued behind it, false for a block whose parent nobody knows, and the answer for
  // the parent if that is fetched.
  lemma HelpAnswers(cfg: L.Config, remote: map<Digest, Block>, rank: Digest -> nat, l: L.Ledger, queue: seq<Block>,
                    b: Block)
    requires WellFounded(cfg, remote, rank)
    ensures b.prev in l.chains && L.IdOf(cfg, b) in l.chains ==>
              Help(cfg, remote, rank, l, queue, b) == (l, true) && HelpQueue(cfg, remote, rank, l, queue, b) == queue
    ensures !GoesToTree(l, b) && Queued(cfg.md5, queue, b.prev) ==>
              && Help(cfg, remote, rank, l, queue, b) == (l, true)
              && Queued(cfg.md5, HelpQueue(cfg, remote, rank, l, queue, b), L.IdOf(cfg, b))
    ensures !GoesToTree(l, b) && !Queued(cfg.md5, queue, b.prev) && b.prev !in remote ==>
              Help(cfg, remote, rank, l, queue, b) == (l, false)
    ensures !GoesToTree(l, b) && !Queued(cfg.md5, queue, b.prev) && b.prev in remote ==>
              Help(cfg, remote, rank, l, queue, b).1 == Help(cfg, remote, rank, l, queue, remote[b.prev]).1
  {
    hide L.Add, Deferred;
    DeferredIsQueued(cfg.md5, b, queue);
  }

  lemma AddKnownKeepsNodes(cfg: L.Config, l: L.Ledger, b: Block, id: Digest)
    requires id in l.chains
    ensures id in AddKnown(cfg, l, b).0.chains
  {
    L.AddChangesOneChain(cfg, l, b);
  }

  // After the answer true the block was offered to the tree, with its parent stored, or it is queued.
  lemma {:induction false} TrueOffersOrQueues(cfg: L.Config, remote: map<Digest, Block>, rank: Digest -> nat,
                                              l: L.Ledger, queue: seq<Block>, b: Block)
    requires WellFounded(cfg, remote, rank) && Help(cfg, remote, rank, l, queue, b).1
    ensures GoesToTree(Help(cfg, remote, rank, l, queue, b).0, b)
         || Queued(cfg.md5, HelpQueue(cfg, remote, rank, l, queue, b), L.IdOf(cfg, b))
  {
    hide AddKnown, Deferred;
    DeferredIsQueued(cfg.md5, b, queue);
    if GoesToTree(l, b) {
      if b.prev in l.chains {
        AddKnownKeepsNodes(cfg, l, b, b.prev);
      }
    } else if !Queued(cfg.md5, queue, b.prev) {
      var mid := Help(cfg, remote, rank, l, queue, remote[b.prev]).0;
      DeferredIsQueued(cfg.md5, b, HelpQueue(cfg, remote, rank, l, queue, remote[b.prev]));
      if b.prev in mid.chains {
        AddKnownKeepsNodes(cfg, mid, b, b.prev);
      }
    }
  }

  // The block on which a run that answers false has failed: the first of the missing ones.
  ghost function FirstMissing(cfg: L.Config, remote: map<Digest, Block>, rank: Digest -> nat,
                              chains: map<Digest, seq<Block>>, b: Block): Block
    requires WellFounded(cfg, remote, rank)
  {
    Missing(cfg, remote, rank, chains, b)[0]
  }

  // ---------- What may be stored ----------

  // The missing ancestors of a block that the remote store has, first to last, and the block.
  ghost function Missing(cfg: L.Config, remote: map<Digest, Block>, rank: Digest -> nat,
                         chains: map<Digest, seq<Block>>, b: Block): (s: seq<Block>)
    requires WellFounded(cfg, remote, rank)
    ensures s != [] && s[|s| - 1] == b
    decreases Distance(remote, rank, b)
  {
    if b.kind.Genesis? || b.prev in chains || b.prev !in remote then [b]
    else Missing(cfg, remote, rank, chains, remote[b.prev]) + [b]
  }

  lemma {:induction false} MissingAreRemote(cfg: L.Config, remote: map<Digest, Block>, rank: Digest -> nat,
                                            chains: map<Digest, seq<Block>>, id: Digest, x: Block)
    requires WellFounded(cfg, remote, rank) && id in remote && x in Missing(cfg, remote, rank, chains, remote[id])
    ensures L.IdOf(cfg, x) in remote && remote[L.IdOf(cfg, x)] == x && rank(L.IdOf(cfg, x)) <= rank(id)
    decreases rank(id)
  {
    var b := remote[id];
    if x != b {
      MissingAreRemote(cfg, remote, rank, chains, b.prev, x);
    }
  }

  // No block is its own ancestor.
  lemma NotItsAncestor(cfg: L.Config, remote: map<Digest, Block>, rank: Digest -> nat, chains: map<Digest, seq<Block>>,
                       b: Block)
    requires WellFounded(cfg, remote, rank) && !b.kind.Genesis? && b.prev in remote
    ensures b !in Missing(cfg, remote, rank, chains, remote[b.prev])
  {
    if b in Missing(cfg, remote, rank, chains, remote[b.prev]) {
      MissingAreRemote(cfg, remote, rank, chains, b.prev, b);
    }
  }

  // The chains of `after` are those of `before` and new ones that end in blocks of `added`, each on
  // top of the chain of its parent.
  ghost predicate GrownBy(cfg: L.Config, before: map<Digest, seq<Block>>, after: map<Digest, seq<Block>>,
                          added: seq<Block>) {
    && (forall id :: id in before ==> id in after && after[id] == before[id])
    && forall id :: id in after && id !in before ==> NewNode(cfg, after, id, added)
  }

  ghost predicate NewNode(cfg: L.Config, after: map<Digest, seq<Block>>, id: Digest, added: seq<Block>)
    requires id in after
  {
    var c := after[id];
    && c != [] && c[|c| - 1] in added && L.IdOf(cfg, c[|c| - 1]) == id
    && (if |c| == 1 then c[0].kind.Genesis? else c[|c| - 1].prev in after && after[c[|c| - 1].prev] == c[..|c| - 1])
  }

  lemma AddGrows(cfg: L.Config, l: L.Ledger, b: Block)
    requires GoesToTree(l, b) && forall id :: id in l.chains ==> l.chains[id] != []
    ensures GrownBy(cfg, l.chains, AddKnown(cfg, l, b).0.chains, [b])
    ensures !AddKnown(cfg, l, b).1 ==> AddKnown(cfg, l, b).0.chains == l.chains
  {
    hide L.Add;
    L.AddChangesOneChain(cfg, l, b);
    if b.prev in l.chains {
      assert (l.chains[b.prev] + [b])[..|l.chains[b.prev]|] == l.chains[b.prev];
    }
  }

  lemma GrownTwice(cfg: L.Config, a: map<Digest, seq<Block>>, b: map<Digest, seq<Block>>, c: map<Digest, seq<Block>>,
                   x: seq<Block>, y: seq<Block>)
    requires GrownBy(cfg, a, b, x) && GrownBy(cfg, b, c, y)
    ensures GrownBy(cfg, a, c, x + y)
  {
    forall id | id in c && id !in a ensures NewNode(cfg, c, id, x + y) {
      assert if id in b then NewNode(cfg, b, id, x) else NewNode(cfg, c, id, y);
    }
  }

  lemma NothingGrown(cfg: L.Config, a: map<Digest, seq<Block>>, s: seq<Block>)
    ensures GrownBy(cfg, a, a, s)
  {
  }

  ghost predicate NoEmptyChain(chains: map<Digest, seq<Block>>) {
    forall id :: id in chains ==> chains[id] != []
  }

  lemma GrownHasNoEmptyChain(cfg: L.Config, a: map<Digest, seq<Block>>, b: map<Digest, seq<Block>>, x: seq<Block>)
    requires NoEmptyChain(a) && GrownBy(cfg, a, b, x)
    ensures NoEmptyChain(b)
  {
    forall id | id in b ensures b[id] != [] {
      assert id in a || NewNode(cfg, b, id, x);
    }
  }

  // Whatever the answer, the run stores nothing but the block and missing ancestors of it that the
  // remote store has, each on top of its parent. After the answer false the nodes are as they were.
  lemma {:induction false} HelpStoresOnlyMissing(cfg: L.Config, remote: map<Digest, Block>, rank: Digest -> nat,
                                                 l: L.Ledger, queue: seq<Block>, b: Block)
    requires WellFounded(cfg, remote, rank) && NoEmptyChain(l.chains)
    ensures var (after, ok) := Help(cfg, remote, rank, l, queue, b);
            && GrownBy(cfg, l.chains, after.chains, Missing(cfg, remote, rank, l.chains, b))
            && (!ok ==> after.chains == l.chains)
    decreases Distance(remote, rank, b)
  {
    hide AddKnown, GrownBy;
    NothingGrown(cfg, l.chains, Missing(cfg, remote, rank, l.chains, b));
    if GoesToTree(l, b) {
      AddGrows(cfg, l, b);
    } else if !Queued(cfg.md5, queue, b.prev) && b.prev in remote {
      var p := remote[b.prev];
      var (mid, ok) := Help(cfg, remote, rank, l, queue, p);
      var line := Missing(cfg, remote, rank, l.chains, p);
      HelpStoresOnlyMissing(cfg, remote, rank, l, queue, p);
      GrownHasNoEmptyChain(cfg, l.chains, mid.chains, line);
      NothingGrown(cfg, mid.chains, [b]);
      if GoesToTree(mid, b) {
        AddGrows(cfg, mid, b);
      }
      GrownTwice(cfg, l.chains, mid.chains, AfterParent(cfg, mid, b).chains, line, [b]);
      GrownTwice(cfg, l.chains, mid.chains, mid.chains, line, [b]);
    }
  }

  // ---------- When the block is stored ----------

  // The tree accepts the block as it is now, whatever happened before.
  ghost predicate Accepts(cfg: L.Config, chains: map<Digest, seq<Block>>, b: Block) {
    if b.kind.Genesis? then chains == map[]
    else
      && L.IdOf(cfg, b) !in chains && b.prev in chains
      && Plain(cfg, chains[b.prev]) && Extends(cfg, chains[b.prev], b)
  }

  function Stored(cfg: L.Config, chains: map<Digest, seq<Block>>, b: Block): map<Digest, seq<Block>> {
    if b.kind.Genesis? then chains[L.IdOf(cfg, b) := [b]]
    else if b.prev in chains then chains[L.IdOf(cfg, b) := chains[b.prev] + [b]]
    else chains
  }

  // Blocks stored one after the other.
  function StoredAll(cfg: L.Config, chains: map<Digest, seq<Block>>, s: seq<Block>): map<Digest, seq<Block>> {
    if s == [] then chains else Stored(cfg, StoredAll(cfg, chains, s[..|s| - 1]), s[|s| - 1])
  }

  // The chains after storing the missing ancestors of a block, parents first, and the block.
  ghost function Fetched(cfg: L.Config, remote: map<Digest, Block>, rank: Digest -> nat,
                         chains: map<Digest, seq<Block>>, b: Block): map<Digest, seq<Block>>
    requires WellFounded(cfg, remote, rank)
  {
    StoredAll(cfg, chains, Missing(cfg, remote, rank, chains, b))
  }

  lemma FetchedStep(cfg: L.Config, remote: map<Digest, Block>, rank: Digest -> nat, chains: map<Digest, seq<Block>>,
                    b: Block)
    requires WellFounded(cfg, remote, rank)
    ensures b.kind.Genesis? || b.prev in chains ==> Fetched(cfg, remote, rank, chains, b) == Stored(cfg, chains, b)
    ensures !b.kind.Genesis? && b.prev !in chains && b.prev in remote ==>
              Fetched(cfg, remote, rank, chains, b) ==
              Stored(cfg, Fetched(cfg, remote, rank, chains, remote[b.prev]), b)
  {
    assert [b][..0] == [];
    assert StoredAll(cfg, chains, []) == chains;
    if !b.kind.Genesis? && b.prev !in chains && b.prev in remote {
      var line := Missing(cfg, remote, rank, chains, remote[b.prev]);
      assert (line + [b])[..|line|] == line;
    }
  }

  // Every missing ancestor is available, acceptable on top of the one before it, and not queued.
  ghost predicate Fetchable(cfg: L.Config, remote: map<Digest, Block>, rank: Digest -> nat,
                            chains: map<Digest, seq<Block>>, queue: seq<Block>, b: Block)
    requires WellFounded(cfg, remote, rank)
    decreases Distance(remote, rank, b)
  {
    if b.kind.Genesis? || b.prev in chains then Accepts(cfg, chains, b)
    else
      && !Queued(cfg.md5, queue, b.prev) && b.prev in remote
      && Fetchable(cfg, remote, rank, chains, queue, remote[b.prev])
      && Accepts(cfg, Fetched(cfg, remote, rank, chains, remote[b.prev]), b)
  }

  lemma AddKnownKeepsSafe(cfg: L.Config, l: L.Ledger, b: Block)
    requires LoadsAsReplay(cfg, l, b.prev) && Safe(cfg, l)
    ensures Safe(cfg, AddKnown(cfg, l, b).0)
  {
    AddKeepsSafe(cfg, l, b);
  }

  lemma {:induction false} HelpKeepsSafe(cfg: L.Config, remote: map<Digest, Block>, rank: Digest -> nat, l: L.Ledger,
                                         queue: seq<Block>, b: Block)
    requires WellFounded(cfg, remote, rank) && HelpOrderly(cfg, remote, rank, l, queue, b) && Safe(cfg, l)
    ensures Safe(cfg, Help(cfg, remote, rank, l, queue, b).0)
    decreases Distance(remote, rank, b)
  {
    hide Safe, AddKnown;
    if GoesToTree(l, b) {
      AddKnownKeepsSafe(cfg, l, b);
    } else if !Queued(cfg.md5, queue, b.prev) && b.prev in remote {
      var (mid, ok) := Help(cfg, remote, rank, l, queue, remote[b.prev]);
      HelpKeepsSafe(cfg, remote, rank, l, queue, remote[b.prev]);
      if ok && GoesToTree(mid, b) {
        AddKnownKeepsSafe(cfg, mid, b);
      }
    }
  }

  // An acceptable block is stored.
  lemma AcceptedIsStored(cfg: L.Config, l: L.Ledger, b: Block)
    requires LoadsAsReplay(cfg, l, b.prev) && Safe(cfg, l) && Accepts(cfg, l.chains, b)
    ensures GoesToTree(l, b) && AddKnown(cfg, l, b).1 && AddKnown(cfg, l, b).0.chains == Stored(cfg, l.chains, b)
  {
    L.AddChangesOneChain(cfg, l, b);
    if !b.kind.Genesis? {
      VerdictIsHistoryIndependent(cfg, l, b);
    }
  }

  // A block that was stored on a chain within the limits was acceptable.
  lemma StoredWasAccepted(cfg: L.Config, l: L.Ledger, b: Block)
    requires LoadsAsReplay(cfg, l, b.prev) && Safe(cfg, l) && GoesToTree(l, b) && L.IdOf(cfg, b) !in l.chains
    requires L.IdOf(cfg, b) in AddKnown(cfg, l, b).0.chains
    requires !b.kind.Genesis? ==> Plain(cfg, l.chains[b.prev])
    ensures Accepts(cfg, l.chains, b)
  {
    L.AddChangesOneChain(cfg, l, b);
    if !b.kind.Genesis? {
      VerdictIsHistoryIndependent(cfg, l, b);
    }
  }

  // When every missing ancestor is available, acceptable and not queued, the answer is true and exactly
  // these ancestors and the block are stored, parents first.
  lemma {:induction false} FetchableIsStored(cfg: L.Config, remote: map<Digest, Block>, rank: Digest -> nat,
                                             l: L.Ledger, queue: seq<Block>, b: Block)
    requires WellFounded(cfg, remote, rank) && HelpOrderly(cfg, remote, rank, l, queue, b) && Safe(cfg, l)
    requires Fetchable(cfg, remote, rank, l.chains, queue, b)
    ensures var (after, ok) := Help(cfg, remote, rank, l, queue, b);
            ok && after.chains == Fetched(cfg, remote, rank, l.chains, b)
            && HelpQueue(cfg, remote, rank, l, queue, b) == queue
    decreases Distance(remote, rank, b)
  {
    hide Safe, AddKnown, Accepts, Fetched;
    FetchedStep(cfg, remote, rank, l.chains, b);
    if GoesToTree(l, b) {
      AcceptedIsStored(cfg, l, b);
    } else {
      var p := remote[b.prev];
      FetchableIsStored(cfg, remote, rank, l, queue, p);
      HelpKeepsSafe(cfg, remote, rank, l, queue, p);
      AcceptedIsStored(cfg, Help(cfg, remote, rank, l, queue, p).0, b);
    }
  }

  // The block is a new node of the tree, on top of a chain within the limits.
  ghost predicate NewlyStored(cfg: L.Config, before: map<Digest, seq<Block>>, after: map<Digest, seq<Block>>,
                              b: Block) {
    var id := L.IdOf(cfg, b);
    && id !in before && id in after && after[id] != [] && after[id][|after[id]| - 1] == b
    && Plain(cfg, after[id][..|after[id]| - 1])
  }

  // A node that only one of the fetched blocks can be is that block.
  lemma NewNodeIs(cfg: L.Config, remote: map<Digest, Block>, rank: Digest -> nat, before: map<Digest, seq<Block>>,
                  after: map<Digest, seq<Block>>, id: Digest)
    requires WellFounded(cfg, remote, rank) && id in remote && id in after && id !in before
    requires GrownBy(cfg, before, after, Missing(cfg, remote, rank, before, remote[id]))
    ensures after[id] != [] && after[id][|after[id]| - 1] == remote[id]
  {
    var line := Missing(cfg, remote, rank, before, remote[id]);
    assert NewNode(cfg, after, id, line);
    MissingAreRemote(cfg, remote, rank, before, id, after[id][|after[id]| - 1]);
  }

  lemma PlainInit(cfg: L.Config, c: seq<Block>)
    requires c != [] && Plain(cfg, c)
    ensures Plain(cfg, c[..|c| - 1])
  {
    assert c == c[..|c| - 1] + [c[|c| - 1]];
    PlainPrefix(cfg, c[..|c| - 1], c[|c| - 1]);
  }

  lemma SafeHasNoEmptyChain(cfg: L.Config, l: L.Ledger)
    requires Safe(cfg, l)
    ensures NoEmptyChain(l.chains)
  {
    forall id | id in l.chains ensures l.chains[id] != [] {
      assert LinkedAt(cfg, l.chains, id);
    }
  }

  // A block that is added by a step of its own is the last of its chain.
  lemma AddedOnItsParent(cfg: L.Config, l: L.Ledger, b: Block)
    requires GoesToTree(l, b) && L.IdOf(cfg, b) !in l.chains && L.IdOf(cfg, b) in AddKnown(cfg, l, b).0.chains
    ensures AddKnown(cfg, l, b).0.chains[L.IdOf(cfg, b)] == L.ChainOf(l, b)
    ensures !b.kind.Genesis? ==>
              b.prev in l.chains
              && AddKnown(cfg, l, b).0.chains[L.IdOf(cfg, b)][..|l.chains[b.prev]|] == l.chains[b.prev]
  {
    L.AddChangesOneChain(cfg, l, b);
  }

  lemma {:induction false} StoredIsFetchable(cfg: L.Config, remote: map<Digest, Block>, rank: Digest -> nat,
                                             l: L.Ledger, queue: seq<Block>, b: Block)
    requires WellFounded(cfg, remote, rank) && HelpOrderly(cfg, remote, rank, l, queue, b) && Safe(cfg, l)
    requires Help(cfg, remote, rank, l, queue, b).1
    requires NewlyStored(cfg, l.chains, Help(cfg, remote, rank, l, queue, b).0.chains, b)
    ensures Fetchable(cfg, remote, rank, l.chains, queue, b)
    decreases Distance(remote, rank, b)
  {
    hide Safe, AddKnown, Accepts, Fetched, Plain, GrownBy;
    var id := L.IdOf(cfg, b);
    SafeHasNoEmptyChain(cfg, l);
    if GoesToTree(l, b) {
      AddedOnItsParent(cfg, l, b);
      StoredWasAccepted(cfg, l, b);
    } else {
      var p := remote[b.prev];
      var (mid, ok) := Help(cfg, remote, rank, l, queue, p);
      HelpStoresOnlyMissing(cfg, remote, rank, l, queue, p);
      HelpKeepsSafe(cfg, remote, rank, l, queue, p);
      SafeHasNoEmptyChain(cfg, mid);
      ParentComesFirst(cfg, remote, rank, l.chains, mid, b);
      AddedOnItsParent(cfg, mid, b);
      NewNodeIs(cfg, remote, rank, l.chains, mid.chains, b.prev);
      PlainInit(cfg, mid.chains[b.prev]);
      StoredIsFetchable(cfg, remote, rank, l, queue, p);
      FetchableIsStored(cfg, remote, rank, l, queue, p);
      StoredWasAccepted(cfg, mid, b);
    }
  }

  // After the parent was fetched, a block that ends up in the tree was not there yet.
  lemma ParentComesFirst(cfg: L.Config, remote: map<Digest, Block>, rank: Digest -> nat,
                         before: map<Digest, seq<Block>>, mid: L.Ledger, b: Block)
    requires WellFounded(cfg, remote, rank) && !b.kind.Genesis? && b.prev in remote && NoEmptyChain(mid.chains)
    requires GrownBy(cfg, before, mid.chains, Missing(cfg, remote, rank, before, remote[b.prev]))
    requires NewlyStored(cfg, before, AfterParent(cfg, mid, b).chains, b)
    ensures L.IdOf(cfg, b) !in mid.chains && GoesToTree(mid, b)
  {
    hide AddKnown, Missing, WellFounded, Distance;
    var id, line := L.IdOf(cfg, b), Missing(cfg, remote, rank, before, remote[b.prev]);
    if id in mid.chains {
      AfterParentKeeps(cfg, mid, b, id);
      assert NewNode(cfg, mid.chains, id, line);
      NotItsAncestor(cfg, remote, rank, before, b);
    }
  }

  lemma AfterParentKeeps(cfg: L.Config, mid: L.Ledger, b: Block, id: Digest)
    requires id in mid.chains && NoEmptyChain(mid.chains)
    ensures id in AfterParent(cfg, mid, b).chains && AfterParent(cfg, mid, b).chains[id] == mid.chains[id]
  {
    hide AddKnown;
    if GoesToTree(mid, b) {
      AddGrows(cfg, mid, b);
    }
  }

  // The answer is true and the block is a new node, on a chain within the limits, exactly when
  // every missing ancestor is available, acceptable and not queued, and the block is acceptable.
  lemma TrueAndStoredIffFetchable(cfg: L.Config, remote: map<Digest, Block>, rank: Digest -> nat, l: L.Ledger,
                                  queue: seq<Block>, b: Block)
    requires WellFounded(cfg, remote, rank) && HelpOrderly(cfg, remote, rank, l, queue, b) && Safe(cfg, l)
    ensures var (after, ok) := Help(cfg, remote, rank, l, queue, b);
            ok && NewlyStored(cfg, l.chains, after.chains, b) <==> Fetchable(cfg, remote, rank, l.chains, queue, b)
  {
    hide Safe, Help, NewlyStored;
    if Fetchable(cfg, remote, rank, l.chains, queue, b) {
      SafeHasNoEmptyChain(cfg, l);
      FetchableIsStored(cfg, remote, rank, l, queue, b);
      FetchedIsNew(cfg, remote, rank, l.chains, queue, b);
    } else if Help(cfg, remote, rank, l, queue, b).1
              && NewlyStored(cfg, l.chains, Help(cfg, remote, rank, l, queue, b).0.chains, b) {
      StoredIsFetchable(cfg, remote, rank, l, queue, b);
    }
  }

  lemma StoredIsNew(cfg: L.Config, chains: map<Digest, seq<Block>>, b: Block)
    requires Accepts(cfg, chains, b) && NoEmptyChain(chains)
    ensures NewlyStored(cfg, chains, Stored(cfg, chains, b), b) && NoEmptyChain(Stored(cfg, chains, b))
    ensures Stored(cfg, chains, b).Keys == chains.Keys + {L.IdOf(cfg, b)} && L.IdOf(cfg, b) !in chains
    ensures GrownBy(cfg, chains, Stored(cfg, chains, b), [b])
  {
    hide Plain, Extends;
    if !b.kind.Genesis? {
      var c := chains[b.prev];
      assert (c + [b])[..|c|] == c;
    } else {
      assert [b][..0] == [];
      NothingIsPlain(cfg);
    }
  }

  lemma NothingIsPlain(cfg: L.Config)
    ensures Plain(cfg, [])
  {
  }

  ghost function Ids(cfg: L.Config, s: seq<Block>): set<Digest> {
    set x | x in s :: L.IdOf(cfg, x)
  }

  lemma IdsSnoc(cfg: L.Config, line: seq<Block>, b: Block)
    ensures Ids(cfg, line + [b]) == Ids(cfg, line) + {L.IdOf(cfg, b)} && Ids(cfg, []) == {}
    ensures line == [] ==> Ids(cfg, [b]) == {L.IdOf(cfg, b)}
  {
  }

  lemma StaysNew(cfg: L.Config, chains: map<Digest, seq<Block>>, mid: map<Digest, seq<Block>>, line: seq<Block>,
                 b: Block)
    requires GrownBy(cfg, chains, mid, line) && NewlyStored(cfg, mid, Stored(cfg, mid, b), b)
    ensures L.IdOf(cfg, b) !in chains && NewlyStored(cfg, chains, Stored(cfg, mid, b), b)
  {
  }

  // The new nodes are exactly the missing ancestors and the block, each with a chain that extends its
  // parent's, and all other nodes are as they were.
  lemma {:induction false} FetchedIsNew(cfg: L.Config, remote: map<Digest, Block>, rank: Digest -> nat,
                                        chains: map<Digest, seq<Block>>, queue: seq<Block>, b: Block)
    requires WellFounded(cfg, remote, rank) && Fetchable(cfg, remote, rank, chains, queue, b) && NoEmptyChain(chains)
    ensures var after, line := Fetched(cfg, remote, rank, chains, b), Missing(cfg, remote, rank, chains, b);
            && after.Keys == chains.Keys + Ids(cfg, line) && chains.Keys !! Ids(cfg, line)
            && GrownBy(cfg, chains, after, line) && NewlyStored(cfg, chains, after, b)
    decreases Distance(remote, rank, b)
  {
    hide Accepts, Stored, Fetched, Plain, GrownBy, NewlyStored, Ids;
    FetchedStep(cfg, remote, rank, chains, b);
    if b.kind.Genesis? || b.prev in chains {
      StoredIsNew(cfg, chains, b);
      IdsSnoc(cfg, [], b);
    } else {
      var p := remote[b.prev];
      var mid, line := Fetched(cfg, remote, rank, chains, p), Missing(cfg, remote, rank, chains, p);
      FetchedIsNew(cfg, remote, rank, chains, queue, p);
      GrownHasNoEmptyChain(cfg, chains, mid, line);
      StoredIsNew(cfg, mid, b);
      GrownTwice(cfg, chains, mid, Stored(cfg, mid, b), line, [b]);
      IdsSnoc(cfg, line, b);
      StaysNew(cfg, chains, mid, line, b);
    }
  }

  // The missing blocks in order: each is the parent of the next.
  lemma {:induction false} MissingIsLine(cfg: L.Config, remote: map<Digest, Block>, rank: Digest -> nat,
                                         chains: map<Digest, seq<Block>>, b: Block, i: nat)
    requires WellFounded(cfg, remote, rank)
    requires 0 < i < |Missing(cfg, remote, rank, chains, b)|
    ensures var s := Missing(cfg, remote, rank, chains, b); s[i].prev == L.IdOf(cfg, s[i - 1]) && s[i].prev !in chains
    decreases Distance(remote, rank, b)
  {
    var s := Missing(cfg, remote, rank, chains, b);
    if i < |s| - 1 {
      MissingIsLine(cfg, remote, rank, chains, remote[b.prev], i);
    }
  }

  // ---------- The answer true does not promise the block ----------

  // The parent is available and acceptable, the block has no proof of work: the answer is true, the
  // parent is stored and the block is not.
  lemma TrueWithoutTheBlock(cfg: L.Config, remote: map<Digest, Block>, rank: Digest -> nat, l: L.Ledger,
                            queue: seq<Block>, b: Block)
    requires WellFounded(cfg, remote, rank) && Safe(cfg, l)
    requires !GoesToTree(l, b) && !Queued(cfg.md5, queue, b.prev) && b.prev in remote
    requires Fetchable(cfg, remote, rank, l.chains, queue, remote[b.prev])
    requires HelpOrderly(cfg, remote, rank, l, queue, remote[b.prev])
    requires !ValidBlock(cfg.md5, b, cfg.opZeros, cfg.noOpZeros)
    requires L.IdOf(cfg, b) !in Fetched(cfg, remote, rank, l.chains, remote[b.prev])
    ensures var (after, ok) := Help(cfg, remote, rank, l, queue, b);
            ok && b.prev in after.chains && L.IdOf(cfg, b) !in after.chains
  {
    hide Safe;
    var p := remote[b.prev];
    SafeHasNoEmptyChain(cfg, l);
    FetchableIsStored(cfg, remote, rank, l, queue, p);
    FetchedIsNew(cfg, remote, rank, l.chains, queue, p);
    var mid := Help(cfg, remote, rank, l, queue, p).0;
    assert L.IdOf(cfg, p) == b.prev;
    assert !L.Validate(cfg, mid, b).1;
  }

  // Such a case: on a tree with a genesis block only, an empty NoOp block can be fetched, and a block
  // on top of it fails the proof of work.
  lemma TrueWithoutTheBlockHappens(cfg: L.Config, g: Block, p: Block, b: Block)
    requires g.kind.Genesis? && p.kind.NoOp? && !b.kind.Genesis?
    requires p.prev == L.IdOf(cfg, g) && p.records == [] && b.prev == L.IdOf(cfg, p)
    requires L.IdOf(cfg, g) != L.IdOf(cfg, p) && L.IdOf(cfg, g) != L.IdOf(cfg, b) && L.IdOf(cfg, p) != L.IdOf(cfg, b)
    requires ValidBlock(cfg.md5, p, cfg.opZeros, cfg.noOpZeros) && !ValidBlock(cfg.md5, b, cfg.opZeros, cfg.noOpZeros)
    ensures var remote, rank: Digest -> nat := map[b.prev := p], _ => 0;
            && WellFounded(cfg, remote, rank)
            && var (after, ok) := Help(cfg, remote, rank, L.Add(cfg, L.EMPTY, g).0, [], b);
               ok && b.prev in after.chains && L.IdOf(cfg, b) !in after.chains
  {
    var remote, rank: Digest -> nat := map[b.prev := p], _ => 0;
    hide L.Add, Safe, Help, Accepts, ValidBlock, RebuildsAsReplay;
    var l := L.Add(cfg, L.EMPTY, g).0;
    StartIsSafe(cfg, g);
    GenesisRebuildsAsReplay(cfg, [g]);
    EmptyNoOpIsAccepted(cfg, g, p, l.chains);
    FetchedStep(cfg, remote, rank, l.chains, p);
    TrueWithoutTheBlock(cfg, remote, rank, l, [], b);
  }

  lemma StartIsSafe(cfg: L.Config, g: Block)
    requires g.kind.Genesis?
    ensures L.Add(cfg, L.EMPTY, g).0 == L.Ledger(map[L.IdOf(cfg, g) := [g]], None)
    ensures Safe(cfg, L.Add(cfg, L.EMPTY, g).0)
  {
    AddFirst(cfg, g);
    assert Safe(cfg, L.EMPTY);
    AddKeepsSafe(cfg, L.EMPTY, g);
  }

  lemma EmptyNoOpIsAccepted(cfg: L.Config, g: Block, p: Block, chains: map<Digest, seq<Block>>)
    requires g.kind.Genesis? && p.kind.NoOp? && p.prev == L.IdOf(cfg, g) && p.records == []
    requires L.IdOf(cfg, g) != L.IdOf(cfg, p) && ValidBlock(cfg.md5, p, cfg.opZeros, cfg.noOpZeros)
    requires chains == map[L.IdOf(cfg, g) := [g]]
    ensures Accepts(cfg, chains, p)
  {
    GenesisIsEmpty(cfg, g);
    assert RecordsOf(g) == [];
    assert Plain(cfg, [g]);
    assert Extends(cfg, [g], p);
  }

  class TreeManager {
    const mTree: T.BlockChainTree
    const findBlockQueue: Q.Queue<Block>

    constructor (cnf: L.Config)
      ensures Valid() && Model() == L.EMPTY && findBlockQueue.Contents() == []
    {
      mTree := new T.BlockChainTree(cnf);
      findBlockQueue := new Q.Queue<Block>();
    }

    ghost predicate Valid()
      reads mTree.mTree, mTree.validator
    {
      mTree.Valid()
    }

    ghost function Model(): L.Ledger
      requires Valid()
      reads mTree.mTree, mTree.validator
    {
      mTree.Model()
    }

    ghost function Cnf(): L.Config {
      mTree.validator.cnf
    }

    ghost function Frame(): set<object>
      reads mTree.mTree
    {
      {mTree.mTree, mTree.validator, findBlockQueue} + mTree.mTree.nodes.Values
    }

    method AddBlock(b: Block) returns (ok: bool)
      requires Valid()
      modifies Frame()
      ensures Valid() && fresh(Frame() - old(Frame()))
      ensures AddedOrDeferred(Cnf(), b, old(Model()), old(findBlockQueue.Contents()),
                              Model(), findBlockQueue.Contents(), ok)
    {
      var parent := mTree.mTree.Find(b.prev);
      if parent != null || b.kind.Genesis? {
        ok := AddToTree(b, parent);
      } else {
        Defer(b);
        ok := true;
      }
    }

    // The first two cases of `AddBlock`: the parent is in the tree, or the block is a genesis block.
    method AddToTree(b: Block, parent: Tree.Node?) returns (ok: bool)
      requires Valid() && GoesToTree(Model(), b) && (parent != null <==> b.prev in mTree.mTree.nodes)
      modifies mTree.mTree, mTree.validator, mTree.mTree.nodes.Values
      ensures Valid() && fresh(mTree.mTree.nodes.Values - old(mTree.mTree.nodes.Values))
      ensures (Model(), ok) == AddKnown(Cnf(), old(Model()), b)
    {
      if parent != null {
        var known := mTree.mTree.Find(Id(mTree.validator.cnf.md5, b));
        if known != null {
          return true;
        }
      }
      var nd := mTree.Add(b);
      ok := nd != null;
    }

    method Defer(b: Block)
      modifies findBlockQueue
      ensures findBlockQueue.Contents() == Deferred(Cnf().md5, b, old(findBlockQueue.Contents()))
    {
      var len := findBlockQueue.Len();
      if len > MAX_ELEM_INQUEUE {
        findBlockQueue.Clear();
      }
      var inQueue := IsQueued(Id(mTree.validator.cnf.md5, b));
      if !inQueue {
        findBlockQueue.Enqueue(b);
      }
    }

    method IsQueued(id: Digest) returns (found: bool)
      ensures found <==> Queued(Cnf().md5, findBlockQueue.Contents(), id)
    {
      var md5 := mTree.validator.cnf.md5;
      var eq := (e: Block) => Id(md5, e) == id;
      found := findBlockQueue.IsInQueue(eq);
      ghost var queue := findBlockQueue.Contents();
      assert forall i :: 0 <= i < |queue| ==> (eq(queue[i]) <==> Id(md5, queue[i]) == id);
    }

    // Adds a block, fetching the ancestors that neither the tree nor the queue has.
    method BlockAdderHelper(b: Block, remote: map<Digest, Block>, ghost rank: Digest -> nat) returns (ok: bool)
      requires Valid() && WellFounded(Cnf(), remote, rank)
      modifies Frame()
      ensures Valid() && fresh(Frame() - old(Frame()))
      ensures (Model(), ok) == Help(Cnf(), remote, rank, old(Model()), old(findBlockQueue.Contents()), b)
      ensures ok ==> findBlockQueue.Contents() ==
                     HelpQueue(Cnf(), remote, rank, old(Model()), old(findBlockQueue.Contents()), b)
      ensures !ok ==> LineCut(Cnf().md5, L.IdOf(Cnf(), FirstMissing(Cnf(), remote, rank, old(Model()).chains, b)),
                              old(findBlockQueue.Contents()), findBlockQueue.Contents())
      decreases Distance(remote, rank, b), 2
    {
      hide Help, HelpQueue, LineCut, FirstMissing, WellFounded, Distance;
      var parent := mTree.mTree.Find(b.prev);
      if b.kind.Genesis? || parent != null {
        ok := HelpKnown(b, remote, rank);
      } else {
        ok := HelpOrphan(b, remote, rank);
      }
    }

    // A block whose parent is not in the tree.
    method HelpOrphan(b: Block, remote: map<Digest, Block>, ghost rank: Digest -> nat) returns (ok: bool)
      requires Valid() && WellFounded(Cnf(), remote, rank) && !GoesToTree(Model(), b)
      modifies Frame()
      ensures Valid() && fresh(Frame() - old(Frame()))
      ensures (Model(), ok) == Help(Cnf(), remote, rank, old(Model()), old(findBlockQueue.Contents()), b)
      ensures ok ==> findBlockQueue.Contents() ==
                     HelpQueue(Cnf(), remote, rank, old(Model()), old(findBlockQueue.Contents()), b)
      ensures !ok ==> LineCut(Cnf().md5, L.IdOf(Cnf(), FirstMissing(Cnf(), remote, rank, old(Model()).chains, b)),
                              old(findBlockQueue.Contents()), findBlockQueue.Contents())
      decreases Distance(remote, rank, b), 1
    {
      hide Help, HelpQueue, LineCut, FirstMissing, WellFounded, Distance, GoesToTree;
      var inQueue := IsQueued(b.prev);
      if inQueue {
        ok := HelpQueued(b, remote, rank);
      } else if b.prev !in remote {
        ok := HelpUnknown(b, remote, rank);
      } else {
        ok := FetchParentFirst(b, remote, rank);
      }
    }

    // A genesis block, or a block whose parent is in the tree.
    method HelpKnown(b: Block, ghost remote: map<Digest, Block>, ghost rank: Digest -> nat) returns (ok: bool)
      requires Valid() && WellFounded(Cnf(), remote, rank) && GoesToTree(Model(), b)
      modifies Frame()
      ensures Valid() && fresh(Frame() - old(Frame()))
      ensures (Model(), ok) == Help(Cnf(), remote, rank, old(Model()), old(findBlockQueue.Contents()), b)
      ensures ok ==> findBlockQueue.Contents() ==
                     HelpQueue(Cnf(), remote, rank, old(Model()), old(findBlockQueue.Contents()), b)
      ensures !ok ==> LineCut(Cnf().md5, L.IdOf(Cnf(), FirstMissing(Cnf(), remote, rank, old(Model()).chains, b)),
                              old(findBlockQueue.Contents()), findBlockQueue.Contents())
    {
      ok := AddOrCut(b);
    }

    // The parent is queued, and the block is queued behind it.
    method HelpQueued(b: Block, ghost remote: map<Digest, Block>, ghost rank: Digest -> nat) returns (ok: bool)
      requires Valid() && WellFounded(Cnf(), remote, rank)
      requires !GoesToTree(Model(), b) && Queued(Cnf().md5, findBlockQueue.Contents(), b.prev)
      modifies Frame()
      ensures Valid() && fresh(Frame() - old(Frame()))
      ensures (Model(), ok) == Help(Cnf(), remote, rank, old(Model()), old(findBlockQueue.Contents()), b)
      ensures ok && findBlockQueue.Contents() ==
                    HelpQueue(Cnf(), remote, rank, old(Model()), old(findBlockQueue.Contents()), b)
    {
      ok := AddBlock(b);
    }

    // Nobody knows the parent: queued descendants of the block are dropped.
    method HelpUnknown(b: Block, ghost remote: map<Digest, Block>, ghost rank: Digest -> nat) returns (ok: bool)
      requires Valid() && WellFounded(Cnf(), remote, rank)
      requires !GoesToTree(Model(), b) && !Queued(Cnf().md5, findBlockQueue.Contents(), b.prev) && b.prev !in remote
      modifies findBlockQueue
      ensures Valid() && Model() == old(Model()) && !ok
      ensures (Model(), ok) == Help(Cnf(), remote, rank, old(Model()), old(findBlockQueue.Contents()), b)
      ensures LineCut(Cnf().md5, L.IdOf(Cnf(), FirstMissing(Cnf(), remote, rank, old(Model()).chains, b)),
                      old(findBlockQueue.Contents()), findBlockQueue.Contents())
    {
      Cut(b);
      ok := false;
    }

    // The last case of the helper: the parent is fetched and added first, with its own ancestors.
    method FetchParentFirst(b: Block, remote: map<Digest, Block>, ghost rank: Digest -> nat) returns (ok: bool)
      requires Valid() && WellFounded(Cnf(), remote, rank)
      requires !GoesToTree(Model(), b) && !Queued(Cnf().md5, findBlockQueue.Contents(), b.prev) && b.prev in remote
      modifies Frame()
      ensures Valid() && fresh(Frame() - old(Frame()))
      ensures (Model(), ok) == Help(Cnf(), remote, rank, old(Model()), old(findBlockQueue.Contents()), b)
      ensures ok ==> findBlockQueue.Contents() ==
                     HelpQueue(Cnf(), remote, rank, old(Model()), old(findBlockQueue.Contents()), b)
      ensures !ok ==> LineCut(Cnf().md5, L.IdOf(Cnf(), FirstMissing(Cnf(), remote, rank, old(Model()).chains, b)),
                              old(findBlockQueue.Contents()), findBlockQueue.Contents())
      decreases Distance(remote, rank, b), 0
    {
      hide AddKnown, Deferred, LineCut;
      ok := BlockAdderHelper(remote[b.prev], remote, rank);
      if ok {
        var added := AddBlock(b);
      }
    }

    method Cut(b: Block)
      requires Valid()
      modifies findBlockQueue
      ensures Valid() && Model() == old(Model())
      ensures LineCut(Cnf().md5, L.IdOf(Cnf(), b), old(findBlockQueue.Contents()), findBlockQueue.Contents())
    {
      var _, line := RemoveNodesStartingFrom(mTree.validator.cnf.md5, b, findBlockQueue);
      assert CutOf(Cnf().md5, L.IdOf(Cnf(), b), line, old(findBlockQueue.Contents()), findBlockQueue.Contents());
    }

    // Adds a block whose place is known, and cuts its descendants out of the queue if it is rejected.
    method AddOrCut(b: Block) returns (ok: bool)
      requires Valid() && GoesToTree(Model(), b)
      modifies Frame()
      ensures Valid() && fresh(Frame() - old(Frame()))
      ensures (Model(), ok) == AddKnown(Cnf(), old(Model()), b)
      ensures ok ==> findBlockQueue.Contents() == old(findBlockQueue.Contents())
      ensures !ok ==> LineCut(Cnf().md5, L.IdOf(Cnf(), b), old(findBlockQueue.Contents()), findBlockQueue.Contents())
    {
      hide AddKnown, Deferred, LineCut;
      ok := AddBlock(b);
      if !ok {
        Cut(b);
      }
    }
  }
}
