/** The sliding window of recent outcomes (src/state.rs): a ring buffer with a running failure count. */
module Window {
  import opened Prelude
  import opened Outcomes

  class Window {
    // The ring; `true` stands for the byte 1, a failure.
    const outcomes: array<bool>
    const capacity: u32
    var head: nat
    var length: nat
    var failures: u32

    ghost predicate Shape()
      reads `head, `length
    {
      1 <= capacity == outcomes.Length && head < capacity && length <= capacity
    }

    ghost predicate Valid()
      reads this, outcomes
    {
      Shape() && failures == Failures(Contents())
    }

    /** The recorded outcomes, oldest first. */
    ghost function Contents(): (s: seq<bool>)
      requires Shape()
      reads `head, `length, outcomes
      ensures |s| == length
    {
      if head + length <= capacity
      then outcomes[head..head + length]
      else outcomes[head..] + outcomes[..head + length - capacity]
    }

    constructor (capacity: u32)
      ensures Valid() && fresh(outcomes)
      ensures this.capacity == Max(capacity, 1)
      ensures Contents() == []
    {
      this.capacity := Max(capacity, 1);
      outcomes := new bool[Max(capacity, 1)];
      head, length, failures := 0, 0, 0;
    }

    /** Takes the oldest outcome off the ring. */
    method PopFront() returns (evicted: bool)
      requires Shape() && length > 0
      modifies this`head, this`length
      ensures Shape() && length == old(length) - 1
      ensures Contents() == old(Contents())[1..] && evicted == old(Contents())[0]
    {
      evicted := outcomes[head];
      head := if head + 1 == capacity then 0 else head + 1;
      length := length - 1;
    }

    /** Puts a new outcome on the ring. */
    method PushBack(failed: bool)
      requires Shape() && length < capacity
      modifies this`length, outcomes
      ensures Shape()
      ensures Contents() == old(Contents()) + [failed]
    {
      var slot := if head + length < capacity then head + length else head + length - capacity;
      outcomes[slot] := failed;
      length := length + 1;
    }

    /** Records one outcome, evicting the oldest when full. */
    method Record(failed: bool)
      requires Valid()
      modifies this, outcomes
      ensures Valid()
      ensures Contents() == Push(old(Contents()), capacity, failed)
    {
      hide Failures, Contents;
      ghost var before := Contents();
      FailuresBound(before);
      if length >= capacity {
        FailuresEvict(before);
        var evicted := PopFront();
        failures := failures - Bit(evicted);
      }
      ghost var kept := Contents();
      FailuresBound(kept);
      FailuresSnoc(kept, failed);
      PushBack(failed);
      if failed {
        failures := failures + 1;
      }
    }

    /** How many outcomes are held. */
    function Filled(): u32
      requires Shape()
      reads `head, `length
    {
      length
    }

    method FailureRate() returns (r: real)
      requires Valid()
      ensures r == Rate(Contents())
    {
      if Filled() == 0 {
        r := 0.0;
      } else {
        r := failures as real / Filled() as real;
      }
    }

    /** Drops all outcomes. */
    method Clear()
      requires Valid()
      modifies this
      ensures Valid()
      ensures Contents() == []
    {
      head, length := 0, 0;
      failures := 0;
    }
  }
}
