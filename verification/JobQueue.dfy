/** The ingest queue: a Redis list pushed on the left and popped on the right, by any number of clients. */
module JobQueue {
  import opened Text

  datatype DequeueError = Idle | Broken | Malformed

  function Reversed<T>(s: seq<T>): (r: seq<T>)
    ensures |r| == |s|
  {
    if s == [] then [] else [s[|s| - 1]] + Reversed(s[..|s| - 1])
  }

  lemma {:induction false} ReversedPush<T>(x: T, s: seq<T>)
    ensures Reversed([x] + s) == Reversed(s) + [x]
  {
    if s != [] {
      var n := |s| - 1;
      ReversedPush(x, s[..n]);
      assert ([x] + s)[..n + 1] == [x] + s[..n];
    }
  }

  /** What was popped, followed by what is still queued from right to left, is what was pushed. */
  ghost predicate Fifo<Job>(pushed: seq<Job>, popped: seq<Job>, list: seq<Job>) {
    pushed == popped + Reversed(list)
  }

  lemma PushKeepsFifo<Job>(pushed: seq<Job>, popped: seq<Job>, list: seq<Job>, j: Job)
    requires Fifo(pushed, popped, list)
    ensures Fifo(pushed + [j], popped, [j] + list)
  {
    ReversedPush(j, list);
  }

  /** What is popped is the oldest job still queued. */
  lemma PopKeepsFifo<Job>(pushed: seq<Job>, popped: seq<Job>, list: seq<Job>)
    requires Fifo(pushed, popped, list) && list != []
    ensures var n := |list| - 1;
      && |popped| < |pushed| && list[n] == pushed[|popped|]
      && Fifo(pushed, popped + [list[n]], list[..n])
  {
  }

  /** First in, first out, each push delivered at most once: deliveries are a prefix of the pushes. */
  lemma DeliveredInOrder<Job>(pushed: seq<Job>, popped: seq<Job>, list: seq<Job>, k: nat)
    requires Fifo(pushed, popped, list) && k < |popped|
    ensures |popped| <= |pushed| && popped[k] == pushed[k]
    ensures list == [] ==> popped == pushed
  {
  }

  class Broker<Job> {
    var list: seq<Job>
    ghost var pushed: seq<Job>   // every job whose push succeeded, oldest first
    ghost var popped: seq<Job>   // every job taken off the list, oldest first

    ghost predicate Valid()
      reads this
    {
      Fifo(pushed, popped, list)
    }

    constructor ()
      ensures Valid() && list == [] && pushed == [] && popped == []
    {
      list, pushed, popped := [], [], [];
    }

    /** `reached` says whether every Redis command before and including the push succeeded. */
    method Enqueue(j: Job, reached: bool) returns (ok: bool)
      requires Valid()
      modifies this
      ensures Valid() && ok == reached && popped == old(popped)
      ensures pushed == old(pushed) + if ok then [j] else []
    {
      if !reached {
        return false;
      }
      PushKeepsFifo(pushed, popped, list, j);
      list := [j] + list;
      pushed := pushed + [j];
      ok := true;
    }

    /**
     The oldest job still queued, removed; `reached` says whether the blocking pop was answered, `decoded` whether
     what came could be read as a job.  A job that cannot be read is off the list all the same.
     */
    method Dequeue(reached: bool, decoded: bool) returns (r: Result<Job, DequeueError>)
      requires Valid()
      modifies this
      ensures Valid() && pushed == old(pushed)
      ensures !reached ==> r == Err(Broken)
      ensures reached && old(|popped|) == |pushed| ==> r == Err(Idle)
      ensures reached && old(|popped|) < |pushed| ==> r == if decoded then Ok(pushed[old(|popped|)]) else Err(Malformed)
      ensures popped == old(popped) + if reached && old(|popped|) < |pushed| then [pushed[old(|popped|)]] else []
    {
      if !reached {
        return Err(Broken);
      }
      if |list| == 0 {
        return Err(Idle);
      }
      PopKeepsFifo(pushed, popped, list);
      var n := |list| - 1;
      var j := list[n];
      list := list[..n];
      popped := popped + [j];
      r := if decoded then Ok(j) else Err(Malformed);
    }
  }
}
