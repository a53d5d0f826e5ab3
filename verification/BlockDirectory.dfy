/** Metadata of every physical block: tier, residency, pins, recency and L2 backing. */
module BlockDirectories {
  import opened MmuTypes

  datatype Meta = Meta(
    live: bool,
    tier: Tier,
    resident: bool,
    dirty: bool,
    pins: nat,
    epoch: nat,
    l1Frame: int,
    l2Slot: int,
    backed: bool)

  /** An owned block that nobody has placed yet. */
  function FreshMeta(): (m: Meta)
    ensures m.live && m.tier == L1 && !m.resident && !m.dirty && m.pins == 0 && m.epoch == 0
    ensures m.l1Frame == m.l2Slot == NONE && !m.backed
  {
    Meta(true, L1, false, false, 0, 0, NONE, NONE, false)
  }

  /** A block nobody owns. */
  function DefaultMeta(): (m: Meta)
    ensures !m.live && m.tier == L2 && !m.resident && !m.dirty && m.pins == 0 && m.epoch == 0
    ensures m.l1Frame == m.l2Slot == NONE && !m.backed
  {
    Meta(false, L2, false, false, 0, 0, NONE, NONE, false)
  }

  predicate IsResident(m: Meta) {
    m.resident
  }

  /** `metas` with entry `block` replaced; blocks out of range are ignored. */
  function Replaced(metas: seq<Meta>, block: int, m: Meta): (r: seq<Meta>)
    ensures |r| == |metas|
  {
    if 0 <= block < |metas| then metas[block := m] else metas
  }

  class BlockDirectory {
    var metas: seq<Meta>

    constructor (capacity: nat)
      ensures metas == seq(capacity, i => DefaultMeta())
    {
      metas := seq(capacity, i => DefaultMeta());
    }

    predicate IsValid(block: int)
      reads this
    {
      0 <= block < |metas|
    }

    method InitializeFreshBlock(block: int) returns (ok: bool)
      modifies this
      ensures ok == old(IsValid(block)) && metas == Replaced(old(metas), block, FreshMeta())
    {
      ok := Put(block, FreshMeta());
    }

    method Reset(block: int)
      modifies this
      ensures metas == Replaced(old(metas), block, DefaultMeta())
    {
      var _ := Put(block, DefaultMeta());
    }

    /** Assignment through the pointer returned by mutable_get. */
    method Put(block: int, m: Meta) returns (ok: bool)
      modifies this
      ensures ok == old(IsValid(block)) && metas == Replaced(old(metas), block, m)
    {
      if !IsValid(block) {
        return false;
      }
      metas := metas[block := m];
      ok := true;
    }

    method SetTier(block: int, tier: Tier) returns (ok: bool)
      modifies this
      ensures ok == old(IsValid(block))
      ensures metas == if ok then old(metas)[block := old(metas)[block].(tier := tier)] else old(metas)
    {
      if !IsValid(block) {
        return false;
      }
      ok := Put(block, metas[block].(tier := tier));
    }

    method SetDirty(block: int, dirty: bool) returns (ok: bool)
      modifies this
      ensures ok == old(IsValid(block))
      ensures metas == if ok then old(metas)[block := old(metas)[block].(dirty := dirty)] else old(metas)
    {
      if !IsValid(block) {
        return false;
      }
      ok := Put(block, metas[block].(dirty := dirty));
    }

    method IncrementPinCount(block: int) returns (ok: bool)
      modifies this
      ensures ok == old(IsValid(block))
      ensures metas == if ok then old(metas)[block := old(metas)[block].(pins := old(metas)[block].pins + 1)] else old(metas)
    {
      if !IsValid(block) {
        return false;
      }
      ok := Put(block, metas[block].(pins := metas[block].pins + 1));
    }

    method DecrementPinCount(block: int) returns (ok: bool)
      modifies this
      ensures ok == (old(IsValid(block)) && old(metas)[block].pins > 0)
      ensures metas == if ok then old(metas)[block := old(metas)[block].(pins := old(metas)[block].pins - 1)] else old(metas)
    {
      if !IsValid(block) || metas[block].pins == 0 {
        return false;
      }
      ok := Put(block, metas[block].(pins := metas[block].pins - 1));
    }

    method SetLastAccessEpoch(block: int, epoch: nat) returns (ok: bool)
      modifies this
      ensures ok == old(IsValid(block))
      ensures metas == if ok then old(metas)[block := old(metas)[block].(epoch := epoch)] else old(metas)
    {
      if !IsValid(block) {
        return false;
      }
      ok := Put(block, metas[block].(epoch := epoch));
    }

    method SetL1FrameId(block: int, frame: int) returns (ok: bool)
      modifies this
      ensures ok == old(IsValid(block))
      ensures metas == if ok then old(metas)[block := old(metas)[block].(l1Frame := frame)] else old(metas)
    {
      if !IsValid(block) {
        return false;
      }
      ok := Put(block, metas[block].(l1Frame := frame));
    }

    method SetL2SlotId(block: int, slot: int) returns (ok: bool)
      modifies this
      ensures ok == old(IsValid(block))
      ensures metas == if ok then old(metas)[block := old(metas)[block].(l2Slot := slot)] else old(metas)
    {
      if !IsValid(block) {
        return false;
      }
      ok := Put(block, metas[block].(l2Slot := slot));
    }

    method SetHasL2Backing(block: int, backed: bool) returns (ok: bool)
      modifies this
      ensures ok == old(IsValid(block))
      ensures metas == if ok then old(metas)[block := old(metas)[block].(backed := backed)] else old(metas)
    {
      if !IsValid(block) {
        return false;
      }
      ok := Put(block, metas[block].(backed := backed));
    }
  }
}
