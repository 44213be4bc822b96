/**
 Which read of a document is the latest of its session: each read registers under its request id and a
 64-bit number that wraps around, and only the owner registered last may publish what it read.
 */
module DocumentReads {
  import opened Text

  const WRAP := 0x1_0000_0000_0000_0000

  datatype Owner = Owner(request: string, sequence: nat)

  /** The owner that the registration `i` of a session was given. */
  function OwnerOf(requests: seq<string>, i: nat): Owner
    requires i < |requests|
  {
    Owner(requests[i], i % WRAP)
  }

  class ReadOwnership {
    var nextSequence: nat
    var latest: Option<Owner>
    ghost var requests: seq<string>  // all registrations, in order

    ghost predicate Valid()
      reads this
    {
      && nextSequence == |requests| % WRAP
      && latest == if requests == [] then None else Some(OwnerOf(requests, |requests| - 1))
    }

    constructor ()
      ensures Valid() && requests == []
    {
      nextSequence, latest, requests := 0, None, [];
    }

    method RegisterRead(request: string) returns (owner: Owner)
      requires Valid()
      modifies this
      ensures Valid() && requests == old(requests) + [request]
      ensures owner == OwnerOf(requests, |old(requests)|)
    {
      owner := Owner(request, nextSequence);
      nextSequence := if nextSequence + 1 == WRAP then 0 else nextSequence + 1;
      latest := Some(owner);
      requests := requests + [request];
      NextWraps(|requests| - 1);
    }

    /** An owner registered earlier is told the truth as long as the numbers have not come round to its own. */
    method IsLatest(owner: Owner, ghost i: nat) returns (yes: bool)
      requires Valid() && i < |requests| && owner == OwnerOf(requests, i)
      ensures yes <==> requests[i] == requests[|requests| - 1] && (|requests| - 1 - i) % WRAP == 0
      ensures |requests| - i <= WRAP ==> (yes <==> i == |requests| - 1)
    {
      yes := latest == Some(owner);
      SameNumber(i, |requests| - 1);
    }
  }

  lemma NextWraps(n: nat)
    ensures (n + 1) % WRAP == if n % WRAP + 1 == WRAP then 0 else n % WRAP + 1
  {
  }

  /** Two registrations have the same number exactly if a whole round lies between them. */
  lemma SameNumber(i: nat, j: nat)
    requires i <= j
    ensures i % WRAP == j % WRAP <==> (j - i) % WRAP == 0
    ensures j - i < WRAP ==> (i % WRAP == j % WRAP <==> i == j)
  {
  }
}
