/** The ready queue of the multi-turn workload: a locked list with a pop policy. */
module ReadyQueue {
  import opened Places

  datatype Popped<T> = Item(item: T) | Nothing | NotImplemented(policy: string)

  lemma RemoveMultiset<T>(xs: seq<T>, i: nat)
    requires i < |xs|
    ensures multiset(xs) == multiset{xs[i]} + multiset(Remove(xs, i))
  {
    assert xs == xs[..i] + [xs[i]] + xs[i + 1..];
  }

  /** `given` and `taken` record everything ever put in and taken out. */
  class ReadyQueue<T(==)> {
    var requests: seq<T>
    const policy: string
    ghost var given: seq<T>
    ghost var taken: seq<T>

    /** Nothing is lost or doubled; under `fifo` things come out in the order they went in. */
    ghost predicate Valid()
      reads this
    {
      && multiset(given) == multiset(taken) + multiset(requests)
      && (policy == "fifo" ==> given == taken + requests)
    }

    constructor (initRequests: seq<T>, policy: string)
      ensures Valid() && requests == given == initRequests && taken == [] && this.policy == policy
    {
      requests, given, taken := initRequests, initRequests, [];
      this.policy := policy;
    }

    method Append(item: T)
      requires Valid()
      modifies this
      ensures Valid() && requests == old(requests) + [item] && given == old(given) + [item] && taken == old(taken)
    {
      requests := requests + [item];
      given := given + [item];
    }

    /** `index` is what `random.randrange` would draw. */
    method Pop(index: nat) returns (popped: Popped<T>)
      requires Valid() && (requests != [] ==> index < |requests|)
      modifies this
      ensures Valid() && given == old(given)
      ensures popped == Nothing <==> old(requests) == []
      ensures popped.NotImplemented? <==> old(requests) != [] && policy != "random" && policy != "fifo"
      ensures popped.Item? ==>
        var i := if policy == "fifo" then 0 else index;
        popped.item == old(requests)[i] && requests == Remove(old(requests), i) && taken == old(taken) + [popped.item]
      ensures !popped.Item? ==> requests == old(requests) && taken == old(taken)
    {
      if requests == [] {
        return Nothing;
      }
      if policy == "random" {
        popped := TakeAt(index);
      } else if policy == "fifo" {
        popped := TakeAt(0);
      } else {
        return NotImplemented(policy);
      }
    }

    method TakeAt(i: nat) returns (popped: Popped<T>)
      requires Valid() && i < |requests| && (policy == "fifo" ==> i == 0)
      modifies this
      ensures Valid() && given == old(given)
      ensures popped == Item(old(requests)[i]) && requests == Remove(old(requests), i)
      ensures taken == old(taken) + [popped.item]
    {
      RemoveMultiset(requests, i);
      popped := Item(requests[i]);
      requests, taken := Remove(requests, i), taken + [popped.item];
    }
  }
}
