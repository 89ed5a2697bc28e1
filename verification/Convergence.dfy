/** Two miners that receive the same blocks in different orders end with the same tree. */
module Convergence {
  import opened Blocks
  import opened Mining
  import opened Chains
  import opened Overlay
  import opened Ledger
  import opened Safety
  import opened Runs
  import opened FilledFiles
  import opened Divergence
  import opened Thresholds
  import opened FileSystemState
  import opened AccountsState
  import opened Deltas
  import Tree = MRootTree
  import T = BlockChainTree

  // ---------- Growing a tree by a rule that depends on chain and block only ----------

  datatype Rules = Rules(id: Block -> Digest, ok: (seq<Block>, Block) -> bool)

  function Grow(r: Rules, chains: map<Digest, seq<Block>>, b: Block): map<Digest, seq<Block>> {
    if r.id(b) in chains then chains
    else if b.kind.Genesis? then if chains == map[] then map[r.id(b) := [b]] else chains
    else if b.prev in chains && r.ok(chains[b.prev], b) then chains[r.id(b) := chains[b.prev] + [b]]
    else chains
  }

  function GrowAll(r: Rules, s: seq<Block>): map<Digest, seq<Block>> {
    if s == [] then map[] else Grow(r, GrowAll(r, s[..|s| - 1]), s[|s| - 1])
  }

  // No two of the blocks share an id, and only one of them is a genesis block.
  ghost predicate Distinct(r: Rules, S: set<Block>) {
    && (forall x, y :: x in S && y in S && r.id(x) == r.id(y) ==> x == y)
    && (forall x, y :: x in S && y in S && x.kind.Genesis? && y.kind.Genesis? ==> x == y)
  }

  ghost predicate Comes(r: Rules, s: seq<Block>, id: Digest) {
    exists j :: 0 <= j < |s| && r.id(s[j]) == id
  }

  ghost predicate Among(s: seq<Block>, S: set<Block>) {
    forall i :: 0 <= i < |s| ==> s[i] in S
  }

  // The blocks of S, each after its parent if the parent is one of them at all. Blocks may come twice.
  ghost predicate ParentFirst(r: Rules, S: set<Block>, s: seq<Block>) {
    && Among(s, S) && (forall b :: b in S ==> b in s)
    && forall i :: 0 <= i < |s| && !s[i].kind.Genesis? && Comes(r, s, s[i].prev) ==> Comes(r, s[..i], s[i].prev)
  }

  // The chains that the blocks can form, said without any order.
  ghost predicate Formed(r: Rules, S: set<Block>, c: seq<Block>)
    decreases |c|
  {
    c != [] &&
    var init, b := c[..|c| - 1], c[|c| - 1];
    b in S &&
    if init == [] then b.kind.Genesis?
    else !b.kind.Genesis? && Formed(r, S, init) && b.prev == r.id(init[|init| - 1]) && r.ok(init, b)
  }

  lemma {:induction false} FormedOfBlocks(r: Rules, S: set<Block>, c: seq<Block>)
    requires Formed(r, S, c)
    ensures Among(c, S)
    decreases |c|
  {
    var init := c[..|c| - 1];
    if init != [] {
      FormedOfBlocks(r, S, init);
    }
    forall i | 0 <= i < |c| ensures c[i] in S {
      assert i < |init| ==> c[i] == init[i];
    }
  }

  // The id of a block determines its chain.
  lemma {:induction false} FormedIsUnique(r: Rules, S: set<Block>, c: seq<Block>, d: seq<Block>)
    requires Distinct(r, S) && Formed(r, S, c) && Formed(r, S, d) && r.id(c[|c| - 1]) == r.id(d[|d| - 1])
    ensures c == d
    decreases |c|
  {
    var x, y, b := c[..|c| - 1], d[..|d| - 1], c[|c| - 1];
    assert c == x + [b] && d == y + [b];
    if x != [] && y != [] {
      FormedIsUnique(r, S, x, y);
    }
  }

  // ---------- The tree holds exactly the chains that its blocks form ----------

  ghost predicate NodeOk(r: Rules, S: set<Block>, chains: map<Digest, seq<Block>>, id: Digest)
    requires id in chains
  {
    var c := chains[id];
    && Formed(r, S, c) && r.id(c[|c| - 1]) == id
    && (|c| > 1 ==> c[|c| - 1].prev in chains && chains[c[|c| - 1].prev] == c[..|c| - 1])
  }

  ghost predicate TreeOk(r: Rules, S: set<Block>, chains: map<Digest, seq<Block>>) {
    forall id :: id in chains ==> NodeOk(r, S, chains, id)
  }

  lemma OldStaysOk(r: Rules, S: set<Block>, chains: map<Digest, seq<Block>>, added: Digest, c: seq<Block>, id: Digest)
    requires id in chains && NodeOk(r, S, chains, id) && added !in chains
    ensures NodeOk(r, S, chains[added := c], id)
  {
  }

  lemma NewIsOk(r: Rules, S: set<Block>, chains: map<Digest, seq<Block>>, b: Block)
    requires b in S && r.id(b) !in chains && !b.kind.Genesis?
    requires b.prev in chains && NodeOk(r, S, chains, b.prev) && r.ok(chains[b.prev], b)
    ensures NodeOk(r, S, chains[r.id(b) := chains[b.prev] + [b]], r.id(b))
  {
    assert (chains[b.prev] + [b])[..|chains[b.prev]|] == chains[b.prev];
  }

  lemma GrowKeepsOk(r: Rules, S: set<Block>, chains: map<Digest, seq<Block>>, b: Block)
    requires TreeOk(r, S, chains) && b in S
    ensures TreeOk(r, S, Grow(r, chains, b))
    ensures forall id :: id in chains ==> id in Grow(r, chains, b) && Grow(r, chains, b)[id] == chains[id]
  {
    var after := Grow(r, chains, b);
    if after != chains {
      if b.kind.Genesis? {
        assert [b][..0] == [];
        assert NodeOk(r, S, after, r.id(b));
      } else {
        assert NodeOk(r, S, chains, b.prev);
        NewIsOk(r, S, chains, b);
      }
      forall id | id in chains ensures NodeOk(r, S, after, id) {
        OldStaysOk(r, S, chains, r.id(b), after[r.id(b)], id);
      }
    }
  }

  lemma {:induction false} GrowAllIsOk(r: Rules, S: set<Block>, s: seq<Block>)
    requires Among(s, S)
    ensures TreeOk(r, S, GrowAll(r, s))
  {
    if s != [] {
      GrowAllIsOk(r, S, s[..|s| - 1]);
      GrowKeepsOk(r, S, GrowAll(r, s[..|s| - 1]), s[|s| - 1]);
    }
  }

  lemma {:induction false} GrowAllKeeps(r: Rules, S: set<Block>, s: seq<Block>, i: nat, id: Digest)
    requires Among(s, S) && i <= |s| && id in GrowAll(r, s[..i])
    ensures id in GrowAll(r, s) && GrowAll(r, s)[id] == GrowAll(r, s[..i])[id]
  {
    if i == |s| {
      assert s[..i] == s;
    } else {
      var init := s[..|s| - 1];
      assert init[..i] == s[..i];
      GrowAllKeeps(r, S, init, i, id);
      GrowAllIsOk(r, S, init);
      GrowKeepsOk(r, S, GrowAll(r, init), s[|s| - 1]);
    }
  }

  // The one genesis block is in every tree that is not empty.
  lemma {:induction false} GenesisIsThere(r: Rules, S: set<Block>, chains: map<Digest, seq<Block>>, id: Digest,
                                          g: Block)
    requires Distinct(r, S) && TreeOk(r, S, chains) && id in chains && g in S && g.kind.Genesis?
    ensures r.id(g) in chains
    decreases |chains[id]|
  {
    assert NodeOk(r, S, chains, id);
    var c := chains[id];
    if |c| > 1 {
      GenesisIsThere(r, S, chains, c[|c| - 1].prev, g);
    }
  }

  lemma ParentIndex(r: Rules, S: set<Block>, s: seq<Block>, p: Block, i: nat) returns (j: nat)
    requires Distinct(r, S) && ParentFirst(r, S, s) && p in S
    requires i < |s| && !s[i].kind.Genesis? && s[i].prev == r.id(p)
    ensures j < i && s[j] == p
  {
    assert p in s;
    var x :| 0 <= x < |s| && s[x] == p;
    assert Comes(r, s, s[i].prev);
    j :| 0 <= j < |s[..i]| && r.id(s[..i][j]) == s[i].prev;
    assert s[j] in S;
  }

  lemma GenesisGrows(r: Rules, S: set<Block>, chains: map<Digest, seq<Block>>, b: Block)
    requires Distinct(r, S) && TreeOk(r, S, chains) && b in S && b.kind.Genesis?
    ensures r.id(b) in Grow(r, chains, b)
  {
    if chains != map[] {
      var x :| x in chains;
      GenesisIsThere(r, S, chains, x, b);
    }
  }

  lemma ChildGrows(r: Rules, chains: map<Digest, seq<Block>>, b: Block, c: seq<Block>)
    requires !b.kind.Genesis? && b.prev in chains && chains[b.prev] == c && r.ok(c, b)
    ensures r.id(b) in Grow(r, chains, b)
  {
  }

  // A chain that the blocks can form is in the tree once its last block has come.
  lemma {:induction false} FormedIsGrown(r: Rules, S: set<Block>, s: seq<Block>, c: seq<Block>, k: nat, i: nat)
    requires Distinct(r, S) && ParentFirst(r, S, s) && Formed(r, S, c)
    requires i < k <= |s| && s[i] == c[|c| - 1]
    ensures r.id(s[i]) in GrowAll(r, s[..k]) && GrowAll(r, s[..k])[r.id(s[i])] == c
    decreases |c|
  {
    hide Grow, GrowAll, TreeOk, NodeOk, Distinct, Comes;
    var b, chains := s[i], GrowAll(r, s[..i]);
    if |c| == 1 {
      GrowAllIsOk(r, S, s[..i]);
      GenesisGrows(r, S, chains, b);
    } else {
      var init := c[..|c| - 1];
      FormedOfBlocks(r, S, init);
      var j := ParentIndex(r, S, s, init[|init| - 1], i);
      FormedIsGrown(r, S, s, init, i, j);
      ChildGrows(r, chains, b, init);
    }
    StaysGrown(r, S, s, k, i);
    GrownIsFormed(r, S, s[..k], r.id(b));
    FormedIsUnique(r, S, GrowAll(r, s[..k])[r.id(b)], c);
  }

  lemma StaysGrown(r: Rules, S: set<Block>, s: seq<Block>, k: nat, i: nat)
    requires Among(s, S) && i < k <= |s| && r.id(s[i]) in Grow(r, GrowAll(r, s[..i]), s[i])
    ensures r.id(s[i]) in GrowAll(r, s[..k])
  {
    assert s[..i + 1][..i] == s[..i];
    assert s[..k][..i + 1] == s[..i + 1];
    GrowAllKeeps(r, S, s[..k], i + 1, r.id(s[i]));
  }

  lemma IndexOf(r: Rules, S: set<Block>, t: seq<Block>, b: Block) returns (i: nat)
    requires ParentFirst(r, S, t) && b in S
    ensures i < |t| && t[i] == b
  {
    assert b in t;
    i :| 0 <= i < |t| && t[i] == b;
  }

  lemma GrownIsFormed(r: Rules, S: set<Block>, s: seq<Block>, id: Digest)
    requires Among(s, S) && id in GrowAll(r, s)
    ensures var c := GrowAll(r, s)[id]; Formed(r, S, c) && c[|c| - 1] in S && r.id(c[|c| - 1]) == id
  {
    GrowAllIsOk(r, S, s);
    assert NodeOk(r, S, GrowAll(r, s), id);
  }

  lemma GrownIsGrownAgain(r: Rules, S: set<Block>, s: seq<Block>, t: seq<Block>, id: Digest)
    requires Distinct(r, S) && ParentFirst(r, S, s) && ParentFirst(r, S, t) && id in GrowAll(r, s)
    ensures id in GrowAll(r, t) && GrowAll(r, t)[id] == GrowAll(r, s)[id]
  {
    var c := GrowAll(r, s)[id];
    GrownIsFormed(r, S, s, id);
    var i := IndexOf(r, S, t, c[|c| - 1]);
    FormedIsGrown(r, S, t, c, |t|, i);
    assert t[..|t|] == t;
  }

  lemma GrowthIgnoresOrder(r: Rules, S: set<Block>, s: seq<Block>, t: seq<Block>)
    requires Distinct(r, S) && ParentFirst(r, S, s) && ParentFirst(r, S, t)
    ensures GrowAll(r, s) == GrowAll(r, t)
  {
    forall id | id in GrowAll(r, s) ensures id in GrowAll(r, t) && GrowAll(r, t)[id] == GrowAll(r, s)[id] {
      GrownIsGrownAgain(r, S, s, t, id);
    }
    forall id | id in GrowAll(r, t) ensures id in GrowAll(r, s) {
      GrownIsGrownAgain(r, S, t, s, id);
    }
  }

  // ---------- The miner's tree grows by such a rule ----------

  ghost function RulesOf(cfg: Config): Rules {
    Rules(b => IdOf(cfg, b), (c, b) => Extends(cfg, c, b))
  }

  // The blocks stay within the limits on every chain they can form.
  ghost predicate AllPlain(cfg: Config, S: set<Block>) {
    forall c: seq<Block> :: Formed(RulesOf(cfg), S, c) ==> Plain(cfg, c)
  }

  // They do when their NoOp blocks are empty, no append is numbered 65535 and no operation is free.
  lemma ChargedBlocksArePlain(cfg: Config, S: set<Block>)
    requires cfg.fees.create >= 1 && cfg.fees.append >= 1
    requires forall b :: b in S ==> NoOpIsEmpty(b) && NoLastRecord(RecordsOf(b))
    ensures AllPlain(cfg, S)
  {
    forall c: seq<Block> | Formed(RulesOf(cfg), S, c)
      ensures Plain(cfg, c)
    {
      FormedOfBlocks(RulesOf(cfg), S, c);
      forall i | 0 <= i < |c| ensures NoOpIsEmpty(c[i]) && WithinLimits(cfg, c, i + 1) {
        assert c[i] in S;
      }
    }
  }

  lemma AddIsGrow(cfg: Config, l: Ledger, b: Block)
    requires LoadsAsReplay(cfg, l, b.prev) && Safe(cfg, l) && (b.prev in l.chains ==> Plain(cfg, l.chains[b.prev]))
    ensures Add(cfg, l, b).0.chains == Grow(RulesOf(cfg), l.chains, b)
  {
    AddChangesOneChain(cfg, l, b);
    if IdOf(cfg, b) !in l.chains && !b.kind.Genesis? && b.prev in l.chains {
      VerdictIsHistoryIndependent(cfg, l, b);
    }
  }

  // Every addition finds the cache or rebuilds it as full replay would.
  ghost predicate OrderlyFeed(cfg: Config, s: seq<Block>) {
    forall i :: 0 <= i < |s| ==> LoadsAsReplay(cfg, Feed(cfg, s[..i]), s[i].prev)
  }

  lemma NoThresholdsFeedIsOrderly(cfg: Config, s: seq<Block>)
    requires NoThresholds(cfg)
    ensures OrderlyFeed(cfg, s)
  {
    forall i | 0 <= i < |s| ensures LoadsAsReplay(cfg, Feed(cfg, s[..i]), s[i].prev) {
      AlwaysOrderly(cfg, Feed(cfg, s[..i]), AddBlock(s[i]));
    }
  }

  lemma OrderlyInit(cfg: Config, s: seq<Block>)
    requires s != [] && OrderlyFeed(cfg, s)
    ensures OrderlyFeed(cfg, s[..|s| - 1]) && LoadsAsReplay(cfg, Feed(cfg, s[..|s| - 1]), s[|s| - 1].prev)
  {
    var init := s[..|s| - 1];
    forall i | 0 <= i < |init| ensures LoadsAsReplay(cfg, Feed(cfg, init[..i]), init[i].prev) {
      assert init[..i] == s[..i];
    }
  }

  lemma {:induction false} FeedIsGrowAll(cfg: Config, S: set<Block>, s: seq<Block>)
    requires OrderlyFeed(cfg, s) && AllPlain(cfg, S) && Among(s, S)
    ensures Safe(cfg, Feed(cfg, s)) && Feed(cfg, s).chains == GrowAll(RulesOf(cfg), s)
  {
    if s != [] {
      var init, b := s[..|s| - 1], s[|s| - 1];
      OrderlyInit(cfg, s);
      FeedIsGrowAll(cfg, S, init);
      var l := Feed(cfg, init);
      GrowAllIsOk(RulesOf(cfg), S, init);
      if b.prev in l.chains {
        assert NodeOk(RulesOf(cfg), S, l.chains, b.prev);
      }
      AddKeepsSafe(cfg, l, b);
      AddIsGrow(cfg, l, b);
    }
  }

  // The same blocks in any two parent-first orders give the same nodes with the same chains, if the
  // thresholds are 0 or every rebuild of the cache in either order has the files of full replay.
  lemma OrderDoesNotMatter(cfg: Config, S: set<Block>, s: seq<Block>, t: seq<Block>)
    requires NoThresholds(cfg) || (OrderlyFeed(cfg, s) && OrderlyFeed(cfg, t))
    requires AllPlain(cfg, S) && Distinct(RulesOf(cfg), S)
    requires ParentFirst(RulesOf(cfg), S, s) && ParentFirst(RulesOf(cfg), S, t)
    ensures Feed(cfg, s).chains == Feed(cfg, t).chains
  {
    if NoThresholds(cfg) {
      NoThresholdsFeedIsOrderly(cfg, s);
      NoThresholdsFeedIsOrderly(cfg, t);
    }
    FeedIsGrowAll(cfg, S, s);
    FeedIsGrowAll(cfg, S, t);
    GrowthIgnoresOrder(RulesOf(cfg), S, s, t);
  }

  // ---------- Otherwise the order matters ----------

  // Four blocks that meet every other hypothesis and give different nodes in two parent-first orders.
  // In both orders `second` has the same parent with the same chain, so its verdict depends on
  // history too.
  ghost predicate OrderDecides(cfg: Config, g: Block, first: Block, sibling: Block, second: Block) {
    var S, s, t := {g, first, sibling, second}, [g, first, sibling, second], [g, first, second, sibling];
    && Distinct(RulesOf(cfg), S) && AllPlain(cfg, S)
    && ParentFirst(RulesOf(cfg), S, s) && ParentFirst(RulesOf(cfg), S, t)
    && IdOf(cfg, second) in Feed(cfg, s).chains && IdOf(cfg, second) !in Feed(cfg, t).chains
  }

  // With a creation threshold above 0: once the sibling has moved the cache away, the tree stores the
  // second creation, and if the second creation comes first, it does not.
  lemma OrderMatters(cfg: Config, g: Block, first: Block, sibling: Block, second: Block, n: Name, d: RecordData)
    requires cfg.confirmsCreate >= 1 && DuplicateRun(cfg, g, first, sibling, second, n, d)
    ensures OrderDecides(cfg, g, first, sibling, second)
  {
    FourArePlain(cfg, g, first, sibling, second);
    FourInOrder(cfg, g, first, sibling, second);
    FeedFour(cfg, g, first, sibling, second);
    FeedFour(cfg, g, first, second, sibling);
    UnsettledRebuildAcceptsDuplicate(cfg, g, first, sibling, second, n, d);
    FirstReplays(cfg, g, first, n, d, 0);
    forall files: Files | HasOnly(files, n, 0) ensures !ScanFs(files, second.records).ok {
      CreationApplies(files, n, second.minerId, d, true);
    }
    SecondIsRefused(cfg, g, first, sibling, second, n, 0);
  }

  // The same with the append threshold alone above 0 and a second append of record 0: a threshold of
  // either kind breaks convergence.
  lemma OrderMattersForAppends(cfg: Config, g: Block, first: Block, sibling: Block, second: Block, n: Name,
                               d: RecordData)
    requires cfg.confirmsCreate <= 0 < cfg.confirmsAppend && DoubleAppendRun(cfg, g, first, sibling, second, n, d)
    ensures OrderDecides(cfg, g, first, sibling, second)
  {
    FillOne(n, first.minerId, d);
    FourArePlain(cfg, g, first, sibling, second);
    FourInOrder(cfg, g, first, sibling, second);
    FeedFour(cfg, g, first, sibling, second);
    FeedFour(cfg, g, first, second, sibling);
    UnsettledRebuildAcceptsDoubleAppend(cfg, g, first, sibling, second, n, d);
    FirstReplays(cfg, g, first, n, d, 1);
    forall files: Files | HasOnly(files, n, 1) ensures !ScanFs(files, second.records).ok {
      AppendApplies(files, second.records[0]);
    }
    SecondIsRefused(cfg, g, first, sibling, second, n, 1);
  }

  lemma FeedFour(cfg: Config, a: Block, b: Block, c: Block, d: Block)
    ensures Feed(cfg, [a, b, c, d]) == Add(cfg, Add(cfg, Add(cfg, Add(cfg, EMPTY, a).0, b).0, c).0, d).0
  {
    hide Add;
    var s := [a, b, c, d];
    assert s[..3] == [a, b, c] && s[..2] == [a, b] && s[..1] == [a] && s[..0] == [];
    FeedSnoc(cfg, s, 0);
    FeedSnoc(cfg, s, 1);
    FeedSnoc(cfg, s, 2);
    FeedSnoc(cfg, s, 3);
    assert s[..4] == s;
  }

  // Operations of the miner itself, clear of the last record.
  predicate OwnOps(b: Block) {
    forall i :: 0 <= i < |b.records| ==> b.records[i].creator == b.minerId && b.records[i].recordNumber == 0
  }

  lemma FourArePlain(cfg: Config, g: Block, first: Block, sibling: Block, second: Block)
    requires SiblingRun(cfg, g, first, sibling, second) && OwnOps(first) && OwnOps(second)
    ensures AllPlain(cfg, {g, first, sibling, second})
  {
    forall c: seq<Block> | Formed(RulesOf(cfg), {g, first, sibling, second}, c)
      ensures Plain(cfg, c)
    {
      FormedOfBlocks(RulesOf(cfg), {g, first, sibling, second}, c);
      forall i | 0 <= i < |c| ensures NoOpIsEmpty(c[i]) && WithinLimits(cfg, c, i + 1) {
        assert c[i] in {g, first, sibling, second};
      }
    }
  }

  lemma FourAreDistinct(cfg: Config, g: Block, first: Block, sibling: Block, second: Block)
    requires SiblingRun(cfg, g, first, sibling, second)
    ensures Distinct(RulesOf(cfg), {g, first, sibling, second})
  {
    hide ValidBlock, IdOf;
  }

  lemma FourInOrder(cfg: Config, g: Block, first: Block, sibling: Block, second: Block)
    requires SiblingRun(cfg, g, first, sibling, second)
    ensures var S, s, t := {g, first, sibling, second}, [g, first, sibling, second], [g, first, second, sibling];
            Distinct(RulesOf(cfg), S) && ParentFirst(RulesOf(cfg), S, s) && ParentFirst(RulesOf(cfg), S, t)
  {
    hide ValidBlock, ParentFirst, Distinct, IdOf;
    FourAreDistinct(cfg, g, first, sibling, second);
    var S := {g, first, sibling, second};
    ThirdAfterParent(cfg, S, [g, first, sibling, second]);
    assert S == {g, first, second, sibling};
    ThirdAfterParent(cfg, S, [g, first, second, sibling]);
  }

  // Four blocks, of which the others follow the first or the second.
  lemma ThirdAfterParent(cfg: Config, S: set<Block>, s: seq<Block>)
    requires |s| == 4 && s[0].kind.Genesis? && S == {s[0], s[1], s[2], s[3]}
    requires s[1].prev == IdOf(cfg, s[0])
    requires s[2].prev == IdOf(cfg, s[0]) || s[2].prev == IdOf(cfg, s[1])
    requires s[3].prev == IdOf(cfg, s[0]) || s[3].prev == IdOf(cfg, s[1])
    ensures ParentFirst(RulesOf(cfg), S, s)
  {
    hide IdOf;
    var r := RulesOf(cfg);
    forall i | 0 <= i < |s| && !s[i].kind.Genesis? ensures Comes(r, s[..i], s[i].prev) {
      var j := if s[i].prev == IdOf(cfg, s[0]) then 0 else 1;
      assert r.id(s[..i][j]) == s[i].prev;
    }
  }

  // Without the sibling the state of the first block is cached, and the second block is refused.
  lemma SecondIsRefused(cfg: Config, g: Block, first: Block, sibling: Block, second: Block, n: Name, k: nat)
    requires SiblingRun(cfg, g, first, sibling, second) && Replays(cfg, [g, first])
    requires HasOnly(FullFilesystem([g, first]).value, n, k)
    requires forall files: Files :: HasOnly(files, n, k) ==> !ScanFs(files, second.records).ok
    ensures var l := Add(cfg, Add(cfg, Add(cfg, EMPTY, g).0, first).0, second).0;
            IdOf(cfg, second) !in l.chains && IdOf(cfg, second) !in Add(cfg, l, sibling).0.chains
  {
    hide Replays, ValidBlock, Balances, FullFilesystem, ScanFs, ScanAccounts, ChainOf;
    var l := Add(cfg, Add(cfg, EMPTY, g).0, first).0;
    AddTwo(cfg, g, first);
    assert HasOnly(l.cache.value.files, n, k);
    AddChangesOneChain(cfg, l, second);
    AddChangesOneChain(cfg, Add(cfg, l, second).0, sibling);
  }

  // ---------- The same chains give the same roots and heights ----------

  lemma ExtendedInChains(t: Tree.MRootTree, n: Tree.Node)
    requires t.Valid() && Tree.Has(t.nodes, n)
    ensures Tree.IsExtended(t.nodes, n) <==>
            exists i :: i in t.Chains() && |t.Chains()[i]| > 1
              && t.Chains()[i][..|t.Chains()[i]| - 1] == t.Chains()[n.id]
  {
    if Tree.IsExtended(t.nodes, n) {
      var i :| i in t.nodes && t.nodes[i].child == n;
      assert t.Chains()[i] == n.Blocks() + [t.nodes[i].value];
      assert t.Chains()[i][..|n.Blocks()|] == n.Blocks();
    }
    if i :| i in t.Chains() && |t.Chains()[i]| > 1 && t.Chains()[i][..|t.Chains()[i]| - 1] == t.Chains()[n.id] {
      var m := t.nodes[i].child;
      assert t.Chains()[i] == m.Blocks() + [t.nodes[i].value];
      assert m.Blocks() == n.Blocks();
      assert m.value == n.value;
    }
  }

  // Two trees with the same chains have the same roots and longest heads of the same height, though
  // the heads themselves may differ.
  lemma SameChainsSameShape(x: Tree.MRootTree, y: Tree.MRootTree, id: Digest)
    requires x.Valid() && y.Valid() && x.md5 == y.md5 && x.Chains() == y.Chains() && id in x.nodes
    ensures id in y.nodes && x.nodes[id].height == y.nodes[id].height
    ensures x.nodes[id] in x.roots <==> y.nodes[id] in y.roots
    ensures x.height == y.height
  {
    assert id in y.Chains();
    RootsAreLeaves(x, id);
    RootsAreLeaves(y, id);
    ExtendedInChains(x, x.nodes[id]);
    ExtendedInChains(y, y.nodes[id]);
    HeightIsAtMost(x, y, id);
    HeightIsAtMost(y, x, id);
  }

  lemma RootsAreLeaves(t: Tree.MRootTree, id: Digest)
    requires t.Valid() && id in t.nodes
    ensures t.nodes[id] in t.roots <==> !Tree.IsExtended(t.nodes, t.nodes[id])
  {
    var n := t.nodes[id];
    if n in t.roots {
      assert n in t.rootsFast;
      assert n in Tree.Leaves(t.nodes);
    }
    if !Tree.IsExtended(t.nodes, n) {
      assert n in Tree.Leaves(t.nodes);
      assert t.roots[t.rootsFast[n]] == n;
    }
  }

  lemma HeightIsAtMost(x: Tree.MRootTree, y: Tree.MRootTree, id: Digest)
    requires x.Valid() && y.Valid() && x.Chains() == y.Chains() && id in x.nodes
    ensures x.height <= y.height
  {
    var h := x.longestChainHead.id;
    assert h in x.Chains();
    assert h in y.nodes && y.nodes[h].Blocks() == x.nodes[h].Blocks();
  }

  // The same nodes at the same heights, the same roots, and the same height of the longest head.
  ghost predicate Alike(x: Tree.MRootTree, y: Tree.MRootTree)
    reads x, y
  {
    && x.nodes.Keys == y.nodes.Keys && x.height == y.height
    && forall id :: id in x.nodes ==>
         x.nodes[id].height == y.nodes[id].height && (x.nodes[id] in x.roots <==> y.nodes[id] in y.roots)
  }

  lemma SameChainsAlike(x: Tree.MRootTree, y: Tree.MRootTree)
    requires x.Valid() && y.Valid() && x.md5 == y.md5 && x.Chains() == y.Chains()
    ensures Alike(x, y)
  {
    assert x.nodes.Keys == x.Chains().Keys && y.nodes.Keys == y.Chains().Keys;
    forall id | id in x.nodes
      ensures x.nodes[id].height == y.nodes[id].height && (x.nodes[id] in x.roots <==> y.nodes[id] in y.roots)
      ensures x.height == y.height
    {
      hide Tree.NodesOk, Tree.RootsOk, Tree.HeadOk, Tree.ChainsOf;
      SameChainsSameShape(x, y, id);
    }
  }

  // ---------- Two miners ----------

  // A miner's tree that receives blocks one by one.
  method FeedTree(cnf: Config, s: seq<Block>) returns (t: T.BlockChainTree)
    ensures t.Valid() && t.validator.cnf == cnf && t.Model() == Feed(cnf, s)
  {
    t := new T.BlockChainTree(cnf);
    assert t.mTree.nodes.Keys == t.mTree.Chains().Keys;
    assert t.mTree.nodes == map[];
    for i := 0 to |s|
      invariant t.Valid() && t.validator.cnf == cnf && t.Model() == Feed(cnf, s[..i])
      invariant fresh(t.mTree) && fresh(t.validator) && fresh(t.mTree.nodes.Values)
    {
      assert s[..i + 1][..i] == s[..i];
      var nd := t.Add(s[i]);
    }
    assert s[..|s|] == s;
  }

  // The trees of two miners with the same configuration that received the same blocks in two
  // parent-first orders: the same nodes with the same heights, the same roots, and longest heads of
  // the same height.
  lemma FedTreesConverge(x: T.BlockChainTree, y: T.BlockChainTree, S: set<Block>, s: seq<Block>, t: seq<Block>)
    requires x.Valid() && y.Valid() && x.validator.cnf == y.validator.cnf
    requires x.Model() == Feed(x.validator.cnf, s) && y.Model() == Feed(y.validator.cnf, t)
    requires NoThresholds(x.validator.cnf) || (OrderlyFeed(x.validator.cnf, s) && OrderlyFeed(x.validator.cnf, t))
    requires AllPlain(x.validator.cnf, S) && Distinct(RulesOf(x.validator.cnf), S)
    requires ParentFirst(RulesOf(x.validator.cnf), S, s) && ParentFirst(RulesOf(x.validator.cnf), S, t)
    ensures Alike(x.mTree, y.mTree)
  {
    OrderDoesNotMatter(x.validator.cnf, S, s, t);
    SameChainsAlike(x.mTree, y.mTree);
  }
}
