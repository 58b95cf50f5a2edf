/** Finite sets of numbers. */
module Sets {

  function Upto(n: nat): (all: set<nat>)
    ensures forall m: nat :: m in all <==> m < n
  {
    if n == 0 then {} else Upto(n - 1) + {n - 1}
  }

  lemma {:induction false} UptoSize(n: nat)
    ensures |Upto(n)| == n
  {
    if n > 0 {
      UptoSize(n - 1);
    }
  }

  lemma SubsetSize(a: set<nat>, b: set<nat>)
    requires a <= b
    ensures |a| <= |b|
  {
    assert b == a + (b - a);
  }
}

/**
 * The history of a consumer loop that settles each delivery by itself, and
 * the shape that the loops of RabbitMQ and NATS give it.
 */
module Settlements {

  /** Deliveries are numbered; the number stands for RabbitMQ's tag or NATS's raw message. */
  datatype Note =
    | Taken(tag: nat)
    | Returned(tag: nat)            // the handler returned
    | Raised(tag: nat)              // decoding or the handler raised
    | Asked(tag: nat, ack: bool)    // one settlement was sent

  /** What must stand before entry i for it to happen. */
  ghost predicate Fits(ns: seq<Note>, i: int)
    requires 0 <= i < |ns|
  {
    match ns[i]
    case Taken(t) => Taken(t) !in ns[..i]
    case Returned(t) => i > 0 && ns[i - 1] == Taken(t)
    case Raised(t) => i > 0 && ns[i - 1] == Taken(t)
    case Asked(t, ack) => i > 0 && ns[i - 1] == if ack then Returned(t) else Raised(t)
  }

  /** An outcome is followed at once by the settlement it calls for. */
  ghost predicate Answered(ns: seq<Note>, i: int)
    requires 0 <= i < |ns|
  {
    match ns[i]
    case Returned(t) => i + 1 < |ns| && ns[i + 1] == Asked(t, true)
    case Raised(t) => i + 1 < |ns| && ns[i + 1] == Asked(t, false)
    case _ => true
  }

  ghost predicate Orderly(ns: seq<Note>) {
    forall i :: 0 <= i < |ns| ==> Fits(ns, i) && Answered(ns, i)
  }

  lemma OrderlyGrows(ns: seq<Note>, more: seq<Note>)
    requires Orderly(ns)
    requires forall i :: |ns| <= i < |ns + more| ==> Fits(ns + more, i) && Answered(ns + more, i)
    ensures Orderly(ns + more)
  {
    forall i | 0 <= i < |ns|
      ensures Fits(ns + more, i) && Answered(ns + more, i)
    {
      assert Fits(ns, i) && Answered(ns, i);
      assert (ns + more)[..i] == ns[..i];
    }
  }

  /** A delivery is taken; one that does not decode is settled at once. */
  lemma TakenNotes(ns: seq<Note>, t: nat, decodes: bool) returns (more: seq<Note>)
    requires Orderly(ns) && Taken(t) !in ns
    ensures more == if decodes then [Taken(t)] else [Taken(t), Raised(t), Asked(t, false)]
    ensures Orderly(ns + more)
  {
    more := if decodes then [Taken(t)] else [Taken(t), Raised(t), Asked(t, false)];
    assert (ns + more)[..|ns|] == ns;
    OrderlyGrows(ns, more);
  }

  /** The handler of the delivery just taken is done. */
  lemma OutcomeNotes(ns: seq<Note>, t: nat, returned: bool) returns (more: seq<Note>)
    requires Orderly(ns) && ns != [] && ns[|ns| - 1] == Taken(t)
    ensures more == [if returned then Returned(t) else Raised(t), Asked(t, returned)]
    ensures Orderly(ns + more)
  {
    more := [if returned then Returned(t) else Raised(t), Asked(t, returned)];
    OrderlyGrows(ns, more);
  }

  lemma TakenBefore(ns: seq<Note>, lo: nat, hi: nat)
    requires Orderly(ns) && lo < hi < |ns| && ns[hi].Taken?
    ensures ns[lo] != ns[hi]
  {
    assert Fits(ns, hi);
    assert ns[..hi][lo] == ns[lo];
  }

  lemma TakenOnce(ns: seq<Note>, i: int, j: int)
    requires Orderly(ns) && 0 <= i < |ns| && 0 <= j < |ns| && ns[i].Taken? && ns[i] == ns[j]
    ensures i == j
  {
    if i < j {
      TakenBefore(ns, i, j);
    } else if j < i {
      TakenBefore(ns, j, i);
    }
  }

  /** Each outcome is followed at once by its settlement, and that is the only one of its delivery. */
  lemma SettledOnce(ns: seq<Note>, i: int)
    requires Orderly(ns) && 0 <= i < |ns| && (ns[i].Returned? || ns[i].Raised?)
    ensures i + 1 < |ns| && ns[i + 1] == Asked(ns[i].tag, ns[i].Returned?)
    ensures forall j :: 0 <= j < |ns| && ns[j].Asked? && ns[j].tag == ns[i].tag ==> j == i + 1
  {
    assert Answered(ns, i) && Fits(ns, i);
    forall j | 0 <= j < |ns| && ns[j].Asked? && ns[j].tag == ns[i].tag ensures j == i + 1 {
      assert Fits(ns, j) && Fits(ns, j - 1);
      TakenOnce(ns, i - 1, j - 2);
    }
  }

  /** Every settlement is the answer to an outcome. */
  lemma AskedAfterOutcome(ns: seq<Note>, j: int)
    requires Orderly(ns) && 0 <= j < |ns| && ns[j].Asked?
    ensures j > 0 && ns[j - 1] == if ns[j].ack then Returned(ns[j].tag) else Raised(ns[j].tag)
  {
    assert Fits(ns, j);
  }
}
