/** pkg/storage/memory.go: an in-memory store that hands out ids 1, 2, 3, ...
    Go keeps the counter and the keys as float64; every id the store can reach
    here is a natural number, which float64 holds exactly below 2^53. */
module MemoryStorage {
  import opened Wrappers

  /** The map a sequence of creates leaves behind: the i-th entity under id i. */
  function Stored<T>(history: seq<T>): (m: map<int, T>)
    ensures forall id :: id in m <==> 1 <= id <= |history|
    decreases |history|
  {
    if history == [] then map[]
    else Stored(history[..|history| - 1])[|history| := history[|history| - 1]]
  }

  /** One more create adds exactly one entry, under the next id. */
  lemma StoredSnoc<T>(history: seq<T>, entity: T)
    ensures |history| + 1 !in Stored(history)
    ensures Stored(history + [entity]) == Stored(history)[|history| + 1 := entity]
  {
    assert (history + [entity])[..|history|] == history;
  }

  /** Id i holds the i-th entity. */
  lemma {:induction false} StoredAt<T>(history: seq<T>, id: int)
    requires 1 <= id <= |history|
    ensures Stored(history)[id] == history[id - 1]
    decreases |history|
  {
    if id < |history| {
      StoredAt(history[..|history| - 1], id);
    }
  }

  class InMemoryStorage<T> {
    var nextFloat: nat
    var memory: map<int, T>
    /** The entities created so far, in order. */
    ghost var history: seq<T>

    /** The counter is the number of creates and id i holds the i-th entity. */
    ghost predicate Valid()
      reads this
    {
      nextFloat == |history| && memory == Stored(history)
    }

    /** `NewInMemoryStorage`: counter 0 and an empty map. */
    constructor()
      ensures Valid() && nextFloat == 0 && memory == map[] && history == []
    {
      nextFloat := 0;
      memory := map[];
      history := [];
    }

    /** `Find`: the entity stored under `id`, or nil; never an error. */
    method Find(id: int) returns (r: Option<T>)
      requires Valid()
      ensures 1 <= id <= |history| ==> r == Some(history[id - 1])
      ensures !(1 <= id <= |history|) ==> r == None
    {
      if id in memory {
        StoredAt(history, id);
        return Some(memory[id]);
      }
      return None;
    }

    /** `Create`: stores the entity under the next id, which was free, and
        returns it; every earlier entry is kept. */
    method Create(entity: T) returns (e: T)
      requires Valid()
      modifies this
      ensures Valid() && e == entity
      ensures nextFloat == old(nextFloat) + 1 && nextFloat !in old(memory)
      ensures memory == old(memory)[nextFloat := entity]
      ensures history == old(history) + [entity]
    {
      StoredSnoc(history, entity);
      nextFloat := nextFloat + 1;
      memory := memory[nextFloat := entity];
      history := history + [entity];
      return entity;
    }
  }
}
