/** Every run of blocks from genesis. */
module Chain {
  import opened Containers
  import opened Bits
  import opened Window
  import opened VoteTable
  import opened VoteCodec
  import opened Transition
  import opened Ledger
  import opened Seal

  /** Hashes behave: headers do not collide, and nothing hashes to zero. */
  ghost predicate SoundHashes(h: Hashes) {
    SoundHeaders(h) && forall s :: h.state(s) != ZERO
  }

  /** No attestation in the body names the hash of the header it is part of, as
      staged with an empty state root. */
  ghost predicate NoSelfVote(h: Hashes, block: Block) {
    forall att :: att in block.attestations ==> att.data.target.root != h.header(HeaderOf(h, block).(stateRoot := ZERO))
  }

  /** A chain's fixed parameters. */
  datatype Setup = Setup(h: Hashes, genesisTime: nat, validators: seq<Validator>)

  ghost predicate SoundSetup(g: Setup) {
    SoundHashes(g.h) && |g.validators| <= VALIDATOR_REGISTRY_LIMIT
  }

  ghost function Start(g: Setup): StateValue {
    GenesisState(g.h, g.genesisTime, g.validators)
  }

  /** The state after a run of blocks. */
  ghost function After(g: Setup, blocks: seq<Block>): Outcome {
    if blocks == [] then Ok(Start(g))
    else
      var before := After(g, blocks[..|blocks| - 1]);
      if before.Err? then before else StateTransition(g.h, before.value, blocks[|blocks| - 1])
  }

  /** The state in which a block's attestations are processed. */
  ghost function Staged(h: Hashes, s: StateValue, block: Block): Outcome {
    ProcessHeader(h, AdvancedTo(h, s, block.slot), HeaderOf(h, block))
  }

  /** The record of a run's votes. */
  ghost function Books(g: Setup, blocks: seq<Block>): Ledger {
    if blocks == [] then Ledger(map[], map[])
    else
      var init, last := blocks[..|blocks| - 1], blocks[|blocks| - 1];
      var before := After(g, init);
      if before.Err? then Books(g, init)
      else
        var staged := Staged(g.h, before.value, last);
        if staged.Err? then Books(g, init)
        else RecordedAll(ContextOf(g.h, staged.value), StartTally(staged.value), last.attestations, Books(g, init))
  }

  /** The root of the run's block at a slot, the zero root for a slot without block. */
  ghost function RootAtSlot(g: Setup, blocks: seq<Block>, slot: nat): Root {
    if blocks == [] then if slot == 0 then g.h.header(Start(g).header) else ZERO
    else if blocks[|blocks| - 1].slot == slot then BlockRoot(g.h, blocks[|blocks| - 1])
    else RootAtSlot(g, blocks[..|blocks| - 1], slot)
  }

  lemma {:induction false} RootHasSlot(g: Setup, blocks: seq<Block>, slot: nat) returns (header: BlockHeader)
    ensures RootAtSlot(g, blocks, slot) != ZERO ==>
              header.slot == slot && g.h.header(header) == RootAtSlot(g, blocks, slot)
  {
    if blocks == [] {
      header := Start(g).header;
    } else if blocks[|blocks| - 1].slot == slot {
      header := HeaderOf(g.h, blocks[|blocks| - 1]);
    } else {
      header := RootHasSlot(g, blocks[..|blocks| - 1], slot);
    }
  }

  /** Different slots never share a block root. */
  lemma RootsDiffer(g: Setup, blocks: seq<Block>, i: nat, j: nat)
    requires SoundHashes(g.h) && i != j && RootAtSlot(g, blocks, i) != ZERO
    ensures RootAtSlot(g, blocks, i) != RootAtSlot(g, blocks, j)
  {
    var a := RootHasSlot(g, blocks, i);
    var b := RootHasSlot(g, blocks, j);
  }

  ghost predicate HistoryIs(g: Setup, blocks: seq<Block>, history: seq<Root>) {
    forall i :: 0 <= i < |history| ==> history[i] == RootAtSlot(g, blocks, i)
  }

  lemma HistoryDistinct(g: Setup, blocks: seq<Block>, history: seq<Root>)
    requires SoundHashes(g.h) && HistoryIs(g, blocks, history)
    ensures DistinctRoots(history)
  {
    forall i, j | 0 <= i < j < |history| && history[i] == history[j]
      ensures history[i] == ZERO
    {
      if history[i] != ZERO {
        RootsDiffer(g, blocks, i, j);
      }
    }
  }

  // ---------------------------------------------------------------- invariants

  ghost predicate SlotsRise(blocks: seq<Block>) {
    && (forall k :: 0 <= k < |blocks| ==> blocks[k].slot > 0)
    && (forall j, k :: 0 <= j < k < |blocks| ==> blocks[j].slot < blocks[k].slot)
  }

  /** What the state's header says about the blocks so far. */
  ghost predicate Located(g: Setup, blocks: seq<Block>, s: StateValue) {
    && s.validators == g.validators
    && s.slot == s.header.slot == |s.history|
    && s.header.stateRoot != ZERO
    && s.header == (if blocks == [] then Start(g).header else HeaderOf(g.h, blocks[|blocks| - 1]))
    && SlotsRise(blocks)
    && HistoryIs(g, blocks, s.history)
    && |s.history| <= HISTORICAL_ROOTS_LIMIT
  }

  ghost function Pending(s: StateValue): Table {
    Decoded(s.voteRoots, s.voteBits, |s.validators|)
  }

  /** The state's checkpoints, window and vote table agree with the record. */
  ghost predicate StateAccounts(s: StateValue, log: Ledger) {
    && Accounts(s.history, |s.validators|, s.finalized.slot, s.justifiedSlots, Pending(s), log)
    && InHistory(s.history, s.finalized) && InHistory(s.history, s.justified)
    && s.finalized.slot <= s.justified.slot
  }

  /** `StateAccounts`, sealed. */
  ghost predicate Agrees(s: StateValue, log: Ledger) {
    forall k: int :: Opens(k) ==> StateAccounts(s, log)
  }

  lemma AgreesAccounts(s: StateValue, log: Ledger)
    requires Agrees(s, log)
    ensures StateAccounts(s, log)
  {
    assert Opens(0);
  }

  ghost predicate Upheld(g: Setup, blocks: seq<Block>, s: StateValue, log: Ledger) {
    && Located(g, blocks, s)
    && (if blocks == [] then s == Start(g) && log == Ledger(map[], map[]) else Agrees(s, log))
  }

  // -------------------------------------------------------------- slots, header

  /** With its state root known, a header is not touched by passing slots. */
  lemma {:induction false} AdvancedOnlySlot(h: Hashes, s: StateValue, target: nat)
    requires s.header.stateRoot != ZERO && s.slot <= target
    ensures AdvancedTo(h, s, target) == s.(slot := target)
    decreases target - s.slot
  {
    if s.slot < target {
      AdvancedOnlySlot(h, SlotStep(h, s), target);
    }
  }

  lemma StagedHistory(g: Setup, blocks: seq<Block>, s: StateValue, block: Block)
    requires Located(g, blocks, s) && s.slot < block.slot && Staged(g.h, s, block).Ok?
    ensures HistoryIs(g, blocks + [block], Staged(g.h, s, block).value.history)
    ensures |Staged(g.h, s, block).value.history| == block.slot <= HISTORICAL_ROOTS_LIMIT
    ensures Staged(g.h, s, block).value.history[..|s.history|] == s.history
    ensures InHistory(Staged(g.h, s, block).value.history, Checkpoint(g.h.header(s.header), s.slot))
  {
    AdvancedOnlySlot(g.h, s, block.slot);
    var s1 := Staged(g.h, s, block).value;
    forall i | 0 <= i < |s1.history|
      ensures s1.history[i] == RootAtSlot(g, blocks + [block], i)
    {
      assert (blocks + [block])[..|blocks|] == blocks;
      if i >= |s.history| {
        RootFromHead(g, blocks, s, i);
      }
    }
  }

  /** From the head's slot on, the run has the head and then nothing. */
  lemma RootFromHead(g: Setup, blocks: seq<Block>, s: StateValue, i: nat)
    requires Located(g, blocks, s) && i >= s.slot
    ensures RootAtSlot(g, blocks, i) == if i == s.slot then g.h.header(s.header) else ZERO
  {
    if i > s.slot {
      NoBlockAt(g, blocks, i);
    }
  }

  lemma {:induction false} NoBlockAt(g: Setup, blocks: seq<Block>, slot: nat)
    requires slot > 0 && forall k :: 0 <= k < |blocks| ==> blocks[k].slot != slot
    ensures RootAtSlot(g, blocks, slot) == ZERO
  {
    if blocks != [] {
      NoBlockAt(g, blocks[..|blocks| - 1], slot);
    }
  }

  /** In a run with rising slots every block is found at its slot. */
  lemma {:induction false} BlockAt(g: Setup, blocks: seq<Block>, k: nat)
    requires k < |blocks| && SlotsRise(blocks)
    ensures RootAtSlot(g, blocks, blocks[k].slot) == BlockRoot(g.h, blocks[k])
  {
    if k < |blocks| - 1 {
      BlockAt(g, blocks[..|blocks| - 1], k);
    }
  }

  /** The record survives the extension of history and window by a new header. */
  lemma GrownAccounts(history: seq<Root>, history': seq<Root>, n: nat, fin: nat, window: seq<bool>, window': seq<bool>,
                      pending: Table, log: Ledger)
    requires DistinctRoots(history') && history <= history'
    requires Accounts(history, n, fin, window, pending, log)
    requires |window'| == |history'| - 1 - fin
    requires forall slot: nat :: Justified(window', fin, slot) == Justified(window, fin, slot)
    ensures Accounts(history', n, fin, window', pending, log)
  {
    SlotsPlace(history', |history'|);
    assert DistinctRoots(history);
    SlotsPlace(history, |history|);
    assert forall r :: r in Slots(history) ==> r in Slots(history') && Slots(history')[r] == Slots(history)[r];
  }

  /** The first header seeds the checkpoints with the genesis root. */
  lemma FirstStaged(g: Setup, s: StateValue, block: Block)
    requires SoundHashes(g.h) && Upheld(g, [], s, Ledger(map[], map[])) && block.slot > 0 && Staged(g.h, s, block).Ok?
    ensures StateAccounts(Staged(g.h, s, block).value, Ledger(map[], map[]))
  {
    AdvancedOnlySlot(g.h, s, block.slot);
    var s1 := Staged(g.h, s, block).value;
    StagedHistory(g, [], s, block);
    assert forall i :: 0 <= i < |s1.justifiedSlots| ==> !s1.justifiedSlots[i];
    assert Pending(s1) == map[];
  }

  lemma LaterStaged(g: Setup, blocks: seq<Block>, s: StateValue, log: Ledger, block: Block)
    requires SoundHashes(g.h) && Upheld(g, blocks, s, log) && blocks != [] && s.slot < block.slot
    requires Staged(g.h, s, block).Ok?
    ensures StateAccounts(Staged(g.h, s, block).value, log)
    ensures Forward(s.finalized.slot, s.justifiedSlots,
                    Staged(g.h, s, block).value.finalized.slot, Staged(g.h, s, block).value.justifiedSlots)
  {
    AgreesAccounts(s, log);
    AdvancedOnlySlot(g.h, s, block.slot);
    StagedHistory(g, blocks, s, block);
    var s1 := Staged(g.h, s, block).value;
    HistoryDistinct(g, blocks + [block], s1.history);
    assert s.header.slot > 0;
    var fin := s.finalized.slot;
    forall slot: nat
      ensures Justified(s1.justifiedSlots, fin, slot) == Justified(s.justifiedSlots, fin, slot)
    {
      ExtendedJustified(s.justifiedSlots, WindowLen(block.slot, fin), fin, slot);
    }
    GrownAccounts(s.history, s1.history, |s.validators|, fin, s.justifiedSlots, s1.justifiedSlots, Pending(s), log);
  }

  // -------------------------------------------------------------- attestations

  lemma StagedContext(h: Hashes, s: StateValue, log: Ledger)
    requires |s.validators| > 0 && DistinctRoots(s.history) && |s.history| <= HISTORICAL_ROOTS_LIMIT
    requires StateAccounts(s, log)
    ensures ContextFits(ContextOf(h, s)) && TallyAccounts(ContextOf(h, s), StartTally(s), log)
  {
  }

  lemma {:induction false} ElementCount(s: seq<Root>, roots: set<Root>)
    requires forall r :: r in roots ==> r in s
    ensures |roots| <= |s|
  {
    if s == [] {
      assert roots == {};
    } else {
      var last := s[|s| - 1];
      ElementCount(s[..|s| - 1], roots - {last});
    }
  }

  /** The vote table never outgrows its bitmap. */
  lemma TableFits(history: seq<Root>, n: nat, fin: nat, window: seq<bool>, pending: Table)
    requires DistinctRoots(history) && PendingOpen(Slots(history), fin, window, pending)
    requires |history| <= HISTORICAL_ROOTS_LIMIT && n <= VALIDATOR_REGISTRY_LIMIT
    ensures |pending| * n <= JUSTIFICATION_VALIDATORS_LIMIT
  {
    SlotsPlace(history, |history|);
    forall r | r in pending
      ensures r in history
    {
      assert history[Slots(history)[r]] == r;
    }
    ElementCount(history, pending.Keys);
    assert |pending| * n <= HISTORICAL_ROOTS_LIMIT * VALIDATOR_REGISTRY_LIMIT by {
      ProductMonotone(|pending|, HISTORICAL_ROOTS_LIMIT, n, VALIDATOR_REGISTRY_LIMIT);
    }
  }

  lemma ProductMonotone(a: nat, b: nat, c: nat, d: nat)
    requires a <= b && c <= d
    ensures a * c <= b * d
  {
    assert a * c <= b * c <= b * d;
  }

  lemma PendingBelow(pending: Table, log: Ledger, n: nat)
    requires PendingIsMerged(pending, log) && BelowAll(log.merged, n)
    ensures BelowAll(pending, n)
  {
    forall r, v | r in pending && v in pending[r]
      ensures v < n
    {
      assert v in log.merged[r];
    }
  }

  /** Storing the tally in the state keeps the record. */
  lemma StoredAccounts(h: Hashes, s: StateValue, t: Tally, log: Ledger)
    requires 0 < |s.validators| <= VALIDATOR_REGISTRY_LIMIT
    requires DistinctRoots(s.history) && |s.history| <= HISTORICAL_ROOTS_LIMIT
    requires TallyAccounts(ContextOf(h, s), t, log)
    ensures WithTally(s, t).Ok? && StateAccounts(WithTally(s, t).value, log)
  {
    var n := |s.validators|;
    var pending := PendingVotes(ContextOf(h, s), t);
    if t.votes.Some? {
      TableFits(s.history, n, t.finalized.slot, t.window, pending);
      PendingBelow(pending, log, n);
      RoundTrip(pending, n);
    }
    assert Pending(WithTally(s, t).value) == pending;
  }

  lemma {:induction false} DecodedHolds(roots: seq<Root>, flat: seq<bool>, n: nat, k: nat, i: nat)
    requires i < k <= |roots|
    ensures roots[i] in DecodedUpTo(roots, flat, n, k)
  {
    if i < k - 1 {
      DecodedHolds(roots, flat, n, k - 1, i);
    }
  }

  lemma NoZeroVotes(s: StateValue, log: Ledger)
    requires StateAccounts(s, log) && DistinctRoots(s.history) && |s.validators| > 0
    ensures ZERO !in s.voteRoots
  {
    SlotsPlace(s.history, |s.history|);
    if ZERO in s.voteRoots {
      var i :| 0 <= i < |s.voteRoots| && s.voteRoots[i] == ZERO;
      DecodedHolds(s.voteRoots, s.voteBits, |s.validators|, |s.voteRoots|, i);
    }
  }

  lemma BodyAccounts(h: Hashes, s: StateValue, atts: seq<Attestation>, log: Ledger)
    requires 0 < |s.validators| <= VALIDATOR_REGISTRY_LIMIT && DistinctRoots(s.history)
    requires |s.history| <= HISTORICAL_ROOTS_LIMIT && StateAccounts(s, log)
    requires forall att :: att in atts ==> att.data.target.root != h.header(s.header)
    ensures match Steps(ContextOf(h, s), StartTally(s), atts)
            case Ok(t) =>
              && WithTally(s, t).Ok?
              && StateAccounts(WithTally(s, t).value, RecordedAll(ContextOf(h, s), StartTally(s), atts, log))
              && Forward(s.finalized.slot, s.justifiedSlots, t.finalized.slot, t.window)
            case Err(e) => e == StaleTarget
  {
    var c, t := ContextOf(h, s), StartTally(s);
    StagedContext(h, s, log);
    StepsKeep(c, t, atts, log);
    if Steps(c, t, atts).Ok? {
      StoredAccounts(h, s, Steps(c, t, atts).value, RecordedAll(c, t, atts, log));
    }
  }

  /** A block's attestations keep the record and move forward; the only possible
      failure is a target below the finalized slot. */
  lemma BodyKeeps(h: Hashes, s: StateValue, atts: seq<Attestation>, log: Ledger)
    requires 0 < |s.validators| <= VALIDATOR_REGISTRY_LIMIT && DistinctRoots(s.history)
    requires |s.history| <= HISTORICAL_ROOTS_LIMIT && Agrees(s, log)
    requires forall att :: att in atts ==> att.data.target.root != h.header(s.header)
    ensures match ProcessAttestations(h, s, atts)
            case Ok(s') =>
              && Agrees(s', RecordedAll(ContextOf(h, s), StartTally(s), atts, log))
              && Forward(s.finalized.slot, s.justifiedSlots, s'.finalized.slot, s'.justifiedSlots)
            case Err(e) => e == StaleTarget
  {
    AgreesAccounts(s, log);
    NoZeroVotes(s, log);
    BodyAccounts(h, s, atts, log);
  }

  lemma BodyFrame(h: Hashes, s: StateValue, atts: seq<Attestation>)
    requires ProcessAttestations(h, s, atts).Ok?
    ensures var s' := ProcessAttestations(h, s, atts).value;
            s'.slot == s.slot && s'.header == s.header && s'.history == s.history && s'.validators == s.validators
  {
  }

  // ------------------------------------------------------------------ one block

  /** The ways a block can be refused in a state reached from genesis. */
  ghost predicate Refusal(e: Error) {
    e in {SlotNotInFuture, WrongProposer, ParentMismatch, HistoryFull, StaleTarget, StateRootMismatch}
  }

  ghost predicate Ahead(s: StateValue, s': StateValue) {
    && Forward(s.finalized.slot, s.justifiedSlots, s'.finalized.slot, s'.justifiedSlots)
    && s.history <= s'.history
  }

  lemma StagedKeeps(g: Setup, blocks: seq<Block>, s: StateValue, log: Ledger, block: Block)
    requires SoundSetup(g) && Upheld(g, blocks, s, log) && s.slot < block.slot && Staged(g.h, s, block).Ok?
    ensures var s1 := Staged(g.h, s, block).value;
            && Agrees(s1, log) && Ahead(s, s1)
            && DistinctRoots(s1.history) && |s1.history| == block.slot <= HISTORICAL_ROOTS_LIMIT
            && HistoryIs(g, blocks + [block], s1.history)
            && s1.slot == block.slot && s1.header == HeaderOf(g.h, block).(stateRoot := ZERO)
            && 0 < |s1.validators| && s1.validators == g.validators
  {
    AdvancedOnlySlot(g.h, s, block.slot);
    StagedHistory(g, blocks, s, block);
    HistoryDistinct(g, blocks + [block], Staged(g.h, s, block).value.history);
    if blocks == [] {
      FirstStaged(g, s, block);
    } else {
      LaterStaged(g, blocks, s, log, block);
    }
  }

  ghost function BlockBooks(h: Hashes, s: StateValue, block: Block, log: Ledger): Ledger {
    var staged := Staged(h, s, block);
    if staged.Err? then log
    else RecordedAll(ContextOf(h, staged.value), StartTally(staged.value), block.attestations, log)
  }

  lemma AcceptedSettles(g: Setup, blocks: seq<Block>, s: StateValue, log: Ledger, block: Block)
    requires SoundSetup(g) && Upheld(g, blocks, s, log) && NoSelfVote(g.h, block)
    requires StateTransition(g.h, s, block).Ok?
    ensures Upheld(g, blocks + [block], StateTransition(g.h, s, block).value, BlockBooks(g.h, s, block, log))
    ensures Ahead(s, StateTransition(g.h, s, block).value)
  {
    var s1 := Staged(g.h, s, block).value;
    StagedKeeps(g, blocks, s, log, block);
    BodyKeeps(g.h, s1, block.attestations, log);
    BodyFrame(g.h, s1, block.attestations);
  }

  lemma RefusedRightly(g: Setup, blocks: seq<Block>, s: StateValue, log: Ledger, block: Block)
    requires SoundSetup(g) && Upheld(g, blocks, s, log) && NoSelfVote(g.h, block)
    requires StateTransition(g.h, s, block).Err?
    ensures Refusal(StateTransition(g.h, s, block).error)
  {
    if s.slot < block.slot {
      AdvancedOnlySlot(g.h, s, block.slot);
      if Staged(g.h, s, block).Ok? {
        var s1 := Staged(g.h, s, block).value;
        StagedKeeps(g, blocks, s, log, block);
        BodyKeeps(g.h, s1, block.attestations, log);
      }
    }
  }

  // ------------------------------------------------------------------- all runs

  ghost predicate NoSelfVotes(g: Setup, blocks: seq<Block>) {
    forall k :: 0 <= k < |blocks| ==> NoSelfVote(g.h, blocks[k])
  }

  /** The run of `blocks` from genesis succeeds and reaches `s`, with sound hashes and
      without self votes. Sealed. */
  ghost predicate Reached(g: Setup, blocks: seq<Block>, s: StateValue) {
    forall k: int :: Opens(k) ==> SoundSetup(g) && NoSelfVotes(g, blocks) && After(g, blocks) == Ok(s)
  }

  lemma ReachedRun(g: Setup, blocks: seq<Block>, s: StateValue)
    requires Reached(g, blocks, s)
    ensures SoundSetup(g) && NoSelfVotes(g, blocks) && After(g, blocks) == Ok(s)
  {
    assert Opens(0);
  }

  /** The last step of a run. */
  lemma ReachedBefore(g: Setup, blocks: seq<Block>, s: StateValue) returns (before: StateValue)
    requires Reached(g, blocks, s) && blocks != []
    ensures Reached(g, blocks[..|blocks| - 1], before)
    ensures StateTransition(g.h, before, blocks[|blocks| - 1]) == Ok(s) && NoSelfVote(g.h, blocks[|blocks| - 1])
    ensures SoundSetup(g)
    ensures Books(g, blocks) == BlockBooks(g.h, before, blocks[|blocks| - 1], Books(g, blocks[..|blocks| - 1]))
  {
    ReachedRun(g, blocks, s);
    before := After(g, blocks[..|blocks| - 1]).value;
  }

  lemma ReachedStart(g: Setup, s: StateValue)
    requires Reached(g, [], s)
    ensures s == Start(g) && Located(g, [], s)
  {
    ReachedRun(g, [], s);
  }

  lemma {:induction false} RunSettles(g: Setup, blocks: seq<Block>, s: StateValue)
    requires Reached(g, blocks, s)
    ensures Upheld(g, blocks, s, Books(g, blocks))
  {
    if blocks == [] {
      ReachedStart(g, s);
    } else {
      var init, last := blocks[..|blocks| - 1], blocks[|blocks| - 1];
      var before := ReachedBefore(g, blocks, s);
      RunSettles(g, init, before);
      AcceptedSettles(g, init, before, Books(g, init), last);
      assert init + [last] == blocks;
    }
  }

  /** After a block at slot N the history has length N, and entry `i` is the root of
      the run's block at slot `i`, or zero if there is none; from the first block on
      both checkpoints are entries of the history. */
  lemma HistoryOfRun(g: Setup, blocks: seq<Block>, s: StateValue)
    requires Reached(g, blocks, s) && blocks != []
    ensures SlotsRise(blocks) && |s.history| == blocks[|blocks| - 1].slot
    ensures forall i :: 0 <= i < |s.history| ==> s.history[i] == RootAtSlot(g, blocks, i)
    ensures DistinctRoots(s.history)
    ensures InHistory(s.history, s.finalized) && InHistory(s.history, s.justified)
  {
    ReachedRun(g, blocks, s);
    RunSettles(g, blocks, s);
    AgreesAccounts(s, Books(g, blocks));
    HistoryDistinct(g, blocks, s.history);
  }

  lemma AheadTwice(a: StateValue, b: StateValue, c: StateValue)
    requires Ahead(a, b) && Ahead(b, c)
    ensures Ahead(a, c)
  {
    ForwardTwice(a.finalized.slot, a.justifiedSlots, b.finalized.slot, b.justifiedSlots, c.finalized.slot, c.justifiedSlots);
  }

  /** Along a run finality never moves back, justified slots stay justified, and the
      history only grows. */
  lemma {:induction false} RunMovesForward(g: Setup, blocks: seq<Block>, k: nat, s: StateValue) returns (early: StateValue)
    requires Reached(g, blocks, s) && k <= |blocks|
    ensures Reached(g, blocks[..k], early) && Ahead(early, s)
    decreases |blocks|
  {
    if k == |blocks| {
      assert blocks[..k] == blocks;
      early := s;
    } else {
      var init, last := blocks[..|blocks| - 1], blocks[|blocks| - 1];
      assert init[..k] == blocks[..k];
      var before := ReachedBefore(g, blocks, s);
      RunSettles(g, init, before);
      AcceptedSettles(g, init, before, Books(g, init), last);
      early := RunMovesForward(g, init, k, before);
      AheadTwice(early, before, s);
    }
  }

  /** The finalized checkpoint is never above the justified one. */
  lemma FinalizedBelowJustified(g: Setup, blocks: seq<Block>, s: StateValue)
    requires Reached(g, blocks, s)
    ensures s.finalized.slot <= s.justified.slot
  {
    RunSettles(g, blocks, s);
    if blocks != [] {
      AgreesAccounts(s, Books(g, blocks));
    }
  }

  /** Finality is safe along a run: the block finalized by a prefix stays in the
      history at its slot. */
  lemma FinalizedStays(g: Setup, blocks: seq<Block>, k: nat, s: StateValue) returns (early: StateValue)
    requires Reached(g, blocks, s) && 0 < k <= |blocks|
    ensures Reached(g, blocks[..k], early) && InHistory(s.history, early.finalized)
  {
    early := RunMovesForward(g, blocks, k, s);
    HistoryOfRun(g, blocks[..k], early);
  }

  /** In every reachable state: the pending votes are exactly the distinct validators
      counted for each open block; a target is adopted exactly when those reach two
      thirds; above finality the justified slots are the adopted ones; and the
      finalized block is the first one or an adopted one. */
  lemma VotesOfRun(g: Setup, blocks: seq<Block>, s: StateValue)
    requires Reached(g, blocks, s) && blocks != []
    ensures StateAccounts(s, Books(g, blocks))
  {
    RunSettles(g, blocks, s);
    AgreesAccounts(s, Books(g, blocks));
  }

  /** A target is adopted exactly when two thirds of the validators voted for it. */
  lemma VotersOfRun(g: Setup, blocks: seq<Block>, s: StateValue)
    requires Reached(g, blocks, s) && blocks != []
    ensures Quorums(|g.validators|, Books(g, blocks)) && BelowAll(Books(g, blocks).merged, |g.validators|)
    ensures forall r :: r in Books(g, blocks).merged ==>
              (r in Books(g, blocks).adopted <==> 3 * |Books(g, blocks).merged[r]| >= 2 * |g.validators|)
  {
    RunSettles(g, blocks, s);
    AgreesAccounts(s, Books(g, blocks));
  }

  /** Targets adopted in any two runs over one registry, on one chain or on two that
      fork, share at least a third of the validators. */
  lemma QuorumsOfRuns(g: Setup, left: seq<Block>, right: seq<Block>, s: StateValue, s': StateValue, a: Root, b: Root)
    requires Reached(g, left, s) && Reached(g, right, s')
    requires a in Books(g, left).adopted && b in Books(g, right).adopted
    ensures 3 * |Books(g, left).adopted[a] * Books(g, right).adopted[b]| >= |g.validators|
  {
    VotersOfRun(g, left, s);
    VotersOfRun(g, right, s');
    QuorumsIntersect(Books(g, left), Books(g, right), |g.validators|, a, b);
  }

  ghost predicate HasTurn(g: Setup, block: Block) {
    |g.validators| != 0 && block.proposerIndex == block.slot % |g.validators|
  }

  lemma {:induction false} TurnsOfRun(g: Setup, blocks: seq<Block>, s: StateValue)
    requires Reached(g, blocks, s)
    ensures forall k :: 0 <= k < |blocks| ==> HasTurn(g, blocks[k])
  {
    if blocks != [] {
      var init, last := blocks[..|blocks| - 1], blocks[|blocks| - 1];
      var before := LastTurn(g, blocks, s);
      TurnsOfRun(g, init, before);
      assert forall k :: 0 <= k < |init| ==> init[k] == blocks[k];
    }
  }

  lemma LastTurn(g: Setup, blocks: seq<Block>, s: StateValue) returns (before: StateValue)
    requires Reached(g, blocks, s) && blocks != []
    ensures Reached(g, blocks[..|blocks| - 1], before) && HasTurn(g, blocks[|blocks| - 1])
  {
    before := ReachedBefore(g, blocks, s);
    RunSettles(g, blocks[..|blocks| - 1], before);
    InTurn(g, blocks[..|blocks| - 1], before, blocks[|blocks| - 1]);
  }

  /** Validators take turns: every block of a run comes from the validator whose turn its
      slot is, and without validators there is no block. */
  lemma ProposersOfRun(g: Setup, blocks: seq<Block>, s: StateValue)
    requires Reached(g, blocks, s)
    ensures blocks != [] ==> |g.validators| > 0
    ensures forall k :: 0 <= k < |blocks| ==> blocks[k].proposerIndex == blocks[k].slot % |g.validators|
  {
    TurnsOfRun(g, blocks, s);
    if blocks != [] {
      assert HasTurn(g, blocks[0]);
    }
  }

  lemma InTurn(g: Setup, blocks: seq<Block>, s: StateValue, block: Block)
    requires Located(g, blocks, s) && StateTransition(g.h, s, block).Ok?
    ensures HasTurn(g, block)
  {
    AdvancedOnlySlot(g.h, s, block.slot);
  }

  /** Which header check refuses a block in a reachable state, if one does. */
  lemma HeaderVerdict(g: Setup, blocks: seq<Block>, s: StateValue, block: Block)
    requires Reached(g, blocks, s)
    ensures var r, n := StateTransition(g.h, s, block), |g.validators|;
            var inTurn := n != 0 && block.proposerIndex == block.slot % n;
            && (r == Err(SlotNotInFuture) <==> block.slot <= s.slot)
            && (r == Err(WrongProposer) <==> s.slot < block.slot && !inTurn)
            && (r == Err(ParentMismatch) <==>
                s.slot < block.slot && inTurn && block.parentRoot != RootAtSlot(g, blocks, s.slot))
            && (r == Err(HistoryFull) <==>
                && s.slot < block.slot && inTurn && block.parentRoot == RootAtSlot(g, blocks, s.slot)
                && block.slot > HISTORICAL_ROOTS_LIMIT)
            && (Staged(g.h, s, block).Ok? && s.slot < block.slot <==>
                && s.slot < block.slot && inTurn && block.parentRoot == RootAtSlot(g, blocks, s.slot)
                && block.slot <= HISTORICAL_ROOTS_LIMIT)
  {
    RunSettles(g, blocks, s);
    RootFromHead(g, blocks, s, s.slot);
    if s.slot < block.slot {
      AdvancedOnlySlot(g.h, s, block.slot);
      if Staged(g.h, s, block).Ok? {
        BodyErrors(g.h, Staged(g.h, s, block).value, block.attestations);
      }
    }
  }

  ghost predicate HeaderError(e: Error) {
    e in {SlotNotInFuture, SlotNotAfterHeader, WrongProposer, ParentMismatch, HistoryFull}
  }

  lemma {:induction false} StepsErrors(c: Context, t: Tally, atts: seq<Attestation>)
    ensures Steps(c, t, atts).Err? ==> !HeaderError(Steps(c, t, atts).error)
  {
    if atts != [] {
      StepsErrors(c, t, atts[..|atts| - 1]);
    }
  }

  /** The attestations never fail for a reason of the header's. */
  lemma BodyErrors(h: Hashes, s: StateValue, atts: seq<Attestation>)
    ensures ProcessAttestations(h, s, atts).Err? ==> !HeaderError(ProcessAttestations(h, s, atts).error)
  {
    StepsErrors(ContextOf(h, s), StartTally(s), atts);
  }

  /** Every pending root lies in the history above finality, unjustified. */
  lemma PendingOfRun(g: Setup, blocks: seq<Block>, s: StateValue, r: Root) returns (slot: nat)
    requires Reached(g, blocks, s) && r in s.voteRoots
    ensures s.finalized.slot < slot < |s.history| && s.history[slot] == r != ZERO
    ensures !Justified(s.justifiedSlots, s.finalized.slot, slot)
  {
    ReachedRun(g, blocks, s);
    RunSettles(g, blocks, s);
    ProposersOfRun(g, blocks, s);
    AgreesAccounts(s, Books(g, blocks));
    HistoryDistinct(g, blocks, s.history);
    SlotsPlace(s.history, |s.history|);
    var i :| 0 <= i < |s.voteRoots| && s.voteRoots[i] == r;
    DecodedHolds(s.voteRoots, s.voteBits, |s.validators|, |s.voteRoots|, i);
    slot := Slots(s.history)[r];
  }

  /** No reachable state refuses a block for an internal reason: not for a vote root
      without slot, a zero vote root, an overflowing bitmap or window. */
  lemma RefusalsOfRun(g: Setup, blocks: seq<Block>, s: StateValue, block: Block)
    requires Reached(g, blocks, s) && NoSelfVote(g.h, block) && StateTransition(g.h, s, block).Err?
    ensures Refusal(StateTransition(g.h, s, block).error)
  {
    ReachedRun(g, blocks, s);
    RunSettles(g, blocks, s);
    RefusedRightly(g, blocks, s, Books(g, blocks), block);
  }

  /** The state in which the next block's attestations are processed. */
  lemma StagedOfRun(g: Setup, blocks: seq<Block>, s: StateValue, block: Block, s1: StateValue)
    requires Reached(g, blocks, s) && s.slot < block.slot && Staged(g.h, s, block) == Ok(s1)
    ensures ContextFits(ContextOf(g.h, s1)) && TallyAccounts(ContextOf(g.h, s1), StartTally(s1), Books(g, blocks))
    ensures s1.header == HeaderOf(g.h, block).(stateRoot := ZERO)
  {
    ReachedRun(g, blocks, s);
    RunSettles(g, blocks, s);
    StagedKeeps(g, blocks, s, Books(g, blocks), block);
    AgreesAccounts(s1, Books(g, blocks));
    StagedContext(g.h, s1, Books(g, blocks));
  }

  /** In every run, attestation `k` of the next block moves the checkpoints exactly as
      the rule on distances says. */
  lemma CheckpointsOfRun(g: Setup, blocks: seq<Block>, s: StateValue, block: Block, s1: StateValue, k: nat)
    requires Reached(g, blocks, s) && NoSelfVote(g.h, block)
    requires s.slot < block.slot && Staged(g.h, s, block) == Ok(s1) && k < |block.attestations|
    requires Steps(ContextOf(g.h, s1), StartTally(s1), block.attestations[..k + 1]).Ok?
    ensures Steps(ContextOf(g.h, s1), StartTally(s1), block.attestations[..k]).Ok?
    ensures MovesByRule(ContextOf(g.h, s1), Steps(ContextOf(g.h, s1), StartTally(s1), block.attestations[..k]).value,
                        block.attestations[k],
                        Steps(ContextOf(g.h, s1), StartTally(s1), block.attestations[..k + 1]).value)
  {
    StagedOfRun(g, blocks, s, block, s1);
    StepByRule(ContextOf(g.h, s1), StartTally(s1), block.attestations, k, Books(g, blocks));
  }
}
