/** The process-local exclusion set. */
module LocalLock {
  import opened Basics

  class InMemoryIssueLock {
    var held: set<int>

    constructor ()
      ensures held == {}
    {
      held := {};
    }

    /** Throws for an ID that is no positive safe integer, and then changes nothing. */
    method TryAcquire(issueId: int) returns (r: Result<bool>)
      modifies this
      ensures r == (if PositiveSafeInteger(issueId) then Ok(issueId !in old(held)) else Throws)
      ensures held == if r.Ok? then old(held) + {issueId} else old(held)
    {
      if !PositiveSafeInteger(issueId) {
        return Throws;
      }
      if issueId in held {
        return Ok(false);
      }
      held := held + {issueId};
      r := Ok(true);
    }

    method Release(issueId: int) returns (r: Result<()>)
      modifies this
      ensures r == (if PositiveSafeInteger(issueId) then Ok(()) else Throws)
      ensures held == if r.Ok? then old(held) - {issueId} else old(held)
    {
      if !PositiveSafeInteger(issueId) {
        return Throws;
      }
      held := held - {issueId};
      r := Ok(());
    }

    predicate IsHeld(issueId: int)
      reads this
    {
      issueId in held
    }
  }
}
