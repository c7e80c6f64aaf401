/**
 * The contract of the `async/priorityQueue` worker pool that schedules account
 * syncs: entries are dispatched smallest key first and first-in first-out among
 * equal keys, at most `concurrency` of them run at once, and a worker's slot is
 * freed only when it calls back.
 */
module SyncQueue {
  import opened Wrappers
  import opened StableOrder

  type AccountId = string

  /** One queued task: the account id it carries and the ordering key it was pushed with. */
  datatype Entry = Entry(id: AccountId, key: int)

  function KeyOf(e: Entry): int { e.key }

  /** The entries one push of `ids` at `key` creates, in the order of `ids`. */
  function Batch(ids: seq<AccountId>, key: int): (r: seq<Entry>)
    ensures |r| == |ids|
    ensures forall i :: 0 <= i < |r| ==> r[i] == Entry(ids[i], key)
  {
    seq(|ids|, i requires 0 <= i < |ids| => Entry(ids[i], key))
  }

  /** The queue after pushing `ids` at `key` onto `entries`. */
  function Pushed(entries: seq<Entry>, ids: seq<AccountId>, key: int): seq<Entry> {
    InsertAfter(entries, KeyOf, key, Batch(ids, key))
  }

  /** A push keeps the queue ordered by key. */
  lemma PushedSorted(entries: seq<Entry>, ids: seq<AccountId>, key: int)
    requires SortedBy(entries, KeyOf)
    ensures SortedBy(Pushed(entries, ids, key), KeyOf)
  {
    InsertAfterSorted(entries, KeyOf, key, Batch(ids, key));
  }

  /** A push loses nothing and adds exactly the new batch. */
  lemma PushedMultiset(entries: seq<Entry>, ids: seq<AccountId>, key: int)
    ensures multiset(Pushed(entries, ids, key)) == multiset(entries) + multiset(Batch(ids, key))
  {
    InsertAfterMultiset(entries, KeyOf, key, Batch(ids, key));
  }

  /** A push appends the batch behind the entries of its key and leaves every other key's entries alone. */
  lemma PushedOfRank(entries: seq<Entry>, ids: seq<AccountId>, key: int, k: int)
    ensures OfRank(Pushed(entries, ids, key), KeyOf, k)
         == OfRank(entries, KeyOf, k) + (if k == key then Batch(ids, key) else [])
  {
    assert AllOfRank(Batch(ids, key), KeyOf, key);
    InsertAfterOfRank(entries, KeyOf, key, Batch(ids, key), k);
  }

  /**
   * First-in first-out among equal keys: two pushes at the same key queue the
   * second batch right behind the first, and both behind everything already
   * queued at that key or a smaller one.
   */
  lemma PushedFifo(entries: seq<Entry>, a: seq<AccountId>, b: seq<AccountId>, key: int)
    requires SortedBy(entries, KeyOf)
    ensures Pushed(Pushed(entries, a, key), b, key)
         == AtMost(entries, KeyOf, key) + Batch(a, key) + Batch(b, key) + Above(entries, KeyOf, key)
  {
    var lo, ba, hi := AtMost(entries, KeyOf, key), Batch(a, key), Above(entries, KeyOf, key);
    var q1 := lo + ba + hi;
    assert q1 == Pushed(entries, a, key);
    forall i | 0 <= i < |lo| ensures KeyOf(lo[i]) <= key { assert lo[i] in lo; }
    forall i | 0 <= i < |hi| ensures KeyOf(hi[i]) > key { assert hi[i] in hi; }
    assert AtMost(q1, KeyOf, key) == lo + ba by {
      AtMostAppend(lo + ba, hi, KeyOf, key);
      AtMostAppend(lo, ba, KeyOf, key);
      AtMostOfLow(lo, KeyOf, key);
      AtMostOfLow(ba, KeyOf, key);
      AboveOfHigh(hi, KeyOf, key);
    }
    assert Above(q1, KeyOf, key) == hi by {
      AboveAppend(lo + ba, hi, KeyOf, key);
      AboveAppend(lo, ba, KeyOf, key);
      AtMostOfLow(lo, KeyOf, key);
      AtMostOfLow(ba, KeyOf, key);
      AboveOfHigh(hi, KeyOf, key);
    }
  }

  /**
   * The most urgent request goes first: a batch pushed with a key smaller than
   * every queued key is the next thing dispatched.
   */
  lemma PushedHead(entries: seq<Entry>, ids: seq<AccountId>, key: int)
    requires ids != []
    requires forall i :: 0 <= i < |entries| ==> entries[i].key > key
    ensures Pushed(entries, ids, key)[0] == Entry(ids[0], key)
  {
    AboveOfHigh(entries, KeyOf, key);
  }

  /** A priority queue with a bounded pool of workers. */
  class TaskQueue {
    /** The entries not yet dispatched, in dispatch order. */
    var entries: seq<Entry>
    /** How many dispatched entries have not yet called back. */
    var running: nat
    const concurrency: nat

    ghost predicate Valid()
      reads this
    {
      SortedBy(entries, KeyOf) && running <= concurrency
    }

    /** The queue is idle when nothing is queued and nothing is running. */
    predicate Idle()
      reads this
    {
      entries == [] && running == 0
    }

    /** `async/priorityQueue(worker, concurrency)`; the library rejects a concurrency of zero. */
    constructor (concurrency: nat)
      requires concurrency > 0
      ensures Valid() && Idle() && this.concurrency == concurrency
    {
      this.concurrency := concurrency;
      entries, running := [], 0;
    }

    /** `queue.push(ids, key)`: one entry per id, all with the same key. */
    method Push(ids: seq<AccountId>, key: int)
      requires Valid()
      modifies this`entries
      ensures Valid()
      ensures entries == Pushed(old(entries), ids, key)
    {
      var p := SplitPoint(entries, KeyOf, key);
      PushedSorted(entries, ids, key);
      entries := entries[..p] + Batch(ids, key) + entries[p..];
    }

    /** `queue.remove(test)`: drops every queued entry the test selects; running entries are not touched. */
    method Remove(drop: Entry -> bool)
      requires Valid()
      modifies this`entries
      ensures Valid()
      ensures entries == Without(old(entries), drop)
    {
      WithoutSorted(entries, KeyOf, drop);
      entries := Without(entries, drop);
    }

    /**
     * One step of the pool: when a worker slot is free and an entry is queued,
     * the entry with the smallest key (the oldest among equal keys) is handed to a worker.
     */
    method Dispatch() returns (next: Option<AccountId>)
      requires Valid()
      modifies this
      ensures Valid()
      ensures old(running < concurrency && entries != []) ==>
        && next == Some(old(entries[0].id))
        && (forall e :: e in old(entries) ==> old(entries[0].key) <= e.key)
        && entries == old(entries[1..])
        && running == old(running) + 1
      ensures !old(running < concurrency && entries != []) ==>
        next == None && entries == old(entries) && running == old(running)
    {
      if running < concurrency && entries != [] {
        next := Some(entries[0].id);
        entries, running := entries[1..], running + 1;
      } else {
        next := None;
      }
    }

    /** A worker's callback: frees its slot. */
    method Release()
      requires Valid() && running > 0
      modifies this`running
      ensures Valid() && running == old(running) - 1
    {
      running := running - 1;
    }
  }
}
