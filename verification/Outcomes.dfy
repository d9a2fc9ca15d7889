/** What one event does to the stream and what it emits, in plain terms. */
module Outcomes {
  import opened Blocks
  import opened Contiguity
  import opened HeadStream
  import opened HeadStreamProofs
  import opened MissedBatches
  import opened Repair
  import opened Verification
  import opened Wrappers

  lemma OneEvent(s: State, e: Event)
    ensures Run(s, [e]) == Step(s, e).state && Emitted(s, [e]) == Step(s, e).yielded
  {
    assert [e][..0] == [];
  }

  // ---- a confirmation ------------------------------------------------------------------------

  /** A confirmation counts: the stream runs on and the id is new. */
  ghost predicate Counts(s: State, id: nat) {
    !s.ended && (if s.confirmed.Some? then id > s.confirmed.value else id > 0)
  }

  /** The verdict on the cache as it is read. The first confirmation is not checked. */
  ghost function Verdict(s: State, env: ConfirmEnv): Option<bool> {
    if s.first then Some(true) else env.verify(Retained(s.cache, env.beforeVerify))
  }

  /** A confirmation that does not count changes nothing. One whose check has no verdict ends the stream
      and leaves the confirmed id. Otherwise the id is the new one, no later confirmation is the first,
      and the cache holds the blocks above the id that the other tasks spare, or nothing if the check
      failed. */
  lemma ConfirmationLeaves(s: State, id: nat, env: ConfirmEnv, b: Block)
    ensures var r, verdict := Run(s, [Confirmed(id, env)]), Verdict(s, env);
            if !Counts(s, id) then r == s
            else if verdict.None? then
              r.ended && r.confirmed == s.confirmed && !r.first &&
              (b in r.cache <==> b in s.cache && env.beforeVerify(b))
            else
              !r.ended && r.confirmed == Some(id) && !r.first &&
              (verdict.value ==>
                 (b in r.cache <==> b in s.cache && b.header.number > id &&
                                    env.beforeVerify(b) && env.beforeUpdate(b) && env.afterUpdate(b))) &&
              (!verdict.value ==> r.cache == [])
  {
    OneEvent(s, Confirmed(id, env));
    assert Retained([], env.afterUpdate) == [];
  }

  /** A confirmation emits the header of the confirmed block exactly when the check fails and the block can
      be read, and nothing in every other case. */
  lemma ConfirmationEmits(s: State, id: nat, env: ConfirmEnv)
    ensures Emitted(s, [Confirmed(id, env)]) ==
            if Counts(s, id) && Verdict(s, env) == Some(false) && env.confirmedBlock.Some? then
              [env.confirmedBlock.value.header]
            else []
  {
    hide Retained;
    OneEvent(s, Confirmed(id, env));
  }

  /** If all cached blocks are above the batch, nothing is compared: undisturbed, the whole cache stays and
      nothing is emitted. */
  lemma ForeignBatchKeepsCache(s: State, id: nat, env: ConfirmEnv, crypto: Crypto, record: Batch, facts: L1Facts,
                               useBlobs: bool)
    requires Counts(s, id) && QuietConfirm(env) && Checks(env, crypto, record, facts, useBlobs)
    requires record.lastBlockId == id && forall b | b in s.cache :: b.header.number > id
    ensures Run(s, [Confirmed(id, env)]) == State(s.cache, Some(id), false, false)
    ensures Emitted(s, [Confirmed(id, env)]) == []
  {
    hide Retained, VerifyLastBatch;
    OneEvent(s, Confirmed(id, env));
    RetainedAll(s.cache, env.beforeVerify);
    NothingToCheck(crypto, record, facts, useBlobs, s.cache);
    RetainedAll(s.cache, env.beforeUpdate);
    RetainedAll(s.cache, NumberAbove(id));
    RetainedAll(s.cache, env.afterUpdate);
  }

  // ---- an arriving block ----------------------------------------------------------------------

  /** A block is taken up: the stream runs on, the block is not empty, and it is not below the confirmed one. */
  ghost predicate TakesUp(s: State, block: Block) {
    !s.ended && |block.txs| > 0 && !(s.confirmed.Some? && block.header.number < s.confirmed.value)
  }

  lemma ResyncEmits(cache: seq<Block>, n: nat, env: ResyncEnv)
    requires HonestResync(env)
    ensures var yielded := Resynced(cache, n, env).yielded;
            (forall h | h in yielded :: h.number > n) &&
            forall i, j | 0 <= i < j < |yielded| :: yielded[i].number < yielded[j].number
  {
    hide Retained, HonestResync;
    if env.latest.Some? && env.latest.value.header.number > n {
      FetchedAscend(n + 1, env.latest.value.header.number, env);
    }
  }

  /** A block that is not taken up changes nothing and nothing is emitted. One that is taken up is the
      first header emitted; the headers behind it, if any, are higher and ascend. */
  lemma ArrivalEmits(s: State, block: Block, env: ResyncEnv)
    requires HonestResync(env)
    ensures var r, emitted := Run(s, [Unconfirmed(block, env)]), Emitted(s, [Unconfirmed(block, env)]);
            if !TakesUp(s, block) then r == s && emitted == []
            else
              r.confirmed == s.confirmed && r.first == s.first && r.ended == s.ended &&
              |emitted| > 0 && emitted[0] == block.header &&
              forall i, j | 0 <= i < j < |emitted| :: emitted[i].number < emitted[j].number
  {
    hide Stored, Resynced, HonestResync, Repairs, Run, Emitted;
    OneEvent(s, Unconfirmed(block, env));
    assert TakesUp(s, block) <==> !s.ended && Accepts(s, block);
    if TakesUp(s, block) {
      hide AfterUnconfirmed;
      AfterRepair(s, block, env);
      ResyncEmits(Stored(s, block, env), block.header.number, env);
    }
  }

  /** Undisturbed, a block that is taken up is cached if and only if it is not the confirmed one; and if no
      higher one is cached, all others stay as they are except the old one of its number. */
  lemma ArrivalCaches(s: State, block: Block, env: ResyncEnv, b: Block)
    requires Inv(s) && HonestResync(env) && Quiet(env) && TakesUp(s, block)
    ensures block in Run(s, [Unconfirmed(block, env)]).cache <==> s.confirmed != Some(block.header.number)
    ensures (forall c | c in s.cache :: c.header.number <= block.header.number) ==>
            (b in Run(s, [Unconfirmed(block, env)]).cache <==>
             (b == block && s.confirmed != Some(block.header.number)) ||
             (b in s.cache && b.header.number != block.header.number))
  {
    hide Retained, AfterUnconfirmed, Stored, Run, Emitted;
    OneEvent(s, Unconfirmed(block, env));
    StoredMembers(s, block, env);
    MembersAfter(s, block, env, block);
    MembersAfter(s, block, env, b);
  }

  // ---- pruning ---------------------------------------------------------------------------------

  lemma PruningLeaves(s: State, keep: Keep, b: Block)
    ensures var r := Run(s, [Pruned(keep)]);
            (b in r.cache <==> b in s.cache && keep(b)) && r == s.(cache := r.cache) && Emitted(s, [Pruned(keep)]) == []
  {
    OneEvent(s, Pruned(keep));
  }
}
