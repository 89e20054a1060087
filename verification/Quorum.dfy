/**
 The provider vote of internal/client/ipdiscovery/discover.go: count the answers,
 then look for a strict winner over the counts in whatever order the map yields them.
 */
module Quorum {
  import opened Options

  type Address = string

  /** Some when the address was accepted; None stands for a result that is not OK. */
  type Result = Option<Address>

  /** How many providers answered a. */
  function Votes(answers: seq<Address>, a: Address): nat {
    multiset(answers)[a]
  }

  /** a has strictly more votes than every other address. */
  ghost predicate StrictWinner(answers: seq<Address>, a: Address) {
    forall b :: b != a ==> Votes(answers, b) < Votes(answers, a)
  }

  ghost predicate Accepts(answers: seq<Address>, quorum: nat, a: Address) {
    StrictWinner(answers, a) && Votes(answers, a) >= quorum
  }

  /** The counts of the answered addresses, and nothing else. */
  ghost predicate Tallies(answers: seq<Address>, counts: map<Address, nat>) {
    && (forall a :: a in counts <==> a in answers)
    && (forall a <- counts :: counts[a] == Votes(answers, a))
  }

  method Count(answers: seq<Address>) returns (counts: map<Address, nat>)
    ensures Tallies(answers, counts)
  {
    counts := map[];
    for i := 0 to |answers|
      invariant Tallies(answers[..i], counts)
    {
      var a := answers[i];
      assert answers[..i + 1] == answers[..i] + [a];
      counts := counts[a := (if a in counts then counts[a] else 0) + 1];
    }
    assert answers[..|answers|] == answers;
  }

  /** The loop over the map. `order` is any order its keys can come in. */
  method Vote(counts: map<Address, nat>, order: seq<Address>, quorum: nat) returns (r: Result)
    requires quorum >= 1 && (forall a :: a in order <==> a in counts) && forall a <- counts :: counts[a] >= 1
    requires forall i, j :: 0 <= i < j < |order| ==> order[i] != order[j]
    ensures r.Some? ==> r.value in counts && counts[r.value] >= quorum && forall b <- counts :: b != r.value ==> counts[b] < counts[r.value]
    ensures r.None? ==> forall a <- counts :: counts[a] >= quorum ==> exists b <- counts :: b != a && counts[b] >= counts[a]
  {
    var winner, top, tie := "", 0, false;
    for i := 0 to |order|
      invariant forall j :: 0 <= j < i ==> counts[order[j]] <= top
      invariant i > 0 ==> top >= 1 && winner in order[..i] && counts[winner] == top
      invariant i == 0 ==> top == 0
      invariant !tie ==> forall j :: 0 <= j < i && order[j] != winner ==> counts[order[j]] < top
      invariant tie ==> exists j :: 0 <= j < i && order[j] != winner && counts[order[j]] == top
    {
      var a := order[i];
      var n := counts[a];
      assert a !in order[..i];
      if n > top {
        top, winner, tie := n, a, false;
      } else if n == top {
        tie := true;
      }
      assert order[i] == a && order[..i + 1] == order[..i] + [a];
    }
    assert order[..|order|] == order;
    if top >= quorum && !tie {
      r := Some(winner);
    } else {
      r := None;
      if tie {
        var j :| 0 <= j < |order| && order[j] != winner && counts[order[j]] == top;
        forall a <- counts ensures exists b <- counts :: b != a && counts[b] >= counts[a] {
          assert counts[a] <= top;
          assert winner in counts && order[j] in counts;
          assert (if a == winner then order[j] else winner) != a;
        }
      }
    }
  }

  /** An arbitrary order of the map's keys. */
  method Keys(counts: map<Address, nat>) returns (order: seq<Address>)
    ensures (forall a :: a in order <==> a in counts) && forall i, j :: 0 <= i < j < |order| ==> order[i] != order[j]
  {
    order := [];
    var left := counts.Keys;
    while left != {}
      invariant forall a :: a in order || a in left <==> a in counts
      invariant forall a <- order :: a !in left
      invariant forall i, j :: 0 <= i < j < |order| ==> order[i] != order[j]
      decreases left
    {
      var a :| a in left;
      order, left := order + [a], left - {a};
    }
  }

  /** discoverFamily once every provider has answered, failed or timed out: an address
      is accepted exactly when it has strictly more votes than any other and at least
      `quorum` of them, whatever the order of arrival and of iteration. */
  method DiscoverFamily(answers: seq<Option<Address>>, quorum: nat) returns (r: Result)
    requires quorum >= 1
    ensures forall a :: r == Some(a) <==> Accepts(Valid(answers), quorum, a)
  {
    var counts := Count(Valid(answers));
    var order := Keys(counts);
    r := Vote(counts, order, quorum);
    var heard := Valid(answers);
    forall a | Accepts(heard, quorum, a) ensures r == Some(a) {
      assert Votes(heard, a) >= 1;
      assert a in counts;
    }
    if r.Some? {
      forall b | b != r.value ensures Votes(heard, b) < Votes(heard, r.value) {
        if b in counts { assert counts[b] < counts[r.value]; } else { assert b !in multiset(heard); }
      }
    }
  }

  /** The answers of the providers that did not fail, in order. */
  function Valid(answers: seq<Option<Address>>): seq<Address> {
    if answers == [] then []
    else Valid(answers[..|answers| - 1]) + if answers[|answers| - 1].Some? then [answers[|answers| - 1].value] else []
  }

  /** Every successful answer is a vote, once for each provider that gave it, and nothing
      else is. */
  lemma {:induction false} EverySuccessVotes(answers: seq<Option<Address>>, a: Address)
    ensures Votes(Valid(answers), a) == multiset(answers)[Some(a)]
  {
    if answers != [] {
      var n := |answers| - 1;
      EverySuccessVotes(answers[..n], a);
      assert answers == answers[..n] + [answers[n]];
    }
  }

  /** How many providers say something other than the truth. */
  function Wrong(answers: seq<Option<Address>>, truth: Address): nat {
    if answers == [] then 0
    else Wrong(answers[..|answers| - 1], truth)
         + if answers[|answers| - 1].Some? && answers[|answers| - 1].value != truth then 1 else 0
  }

  lemma {:induction false} WrongAreThoseWhoDiffer(answers: seq<Option<Address>>, truth: Address)
    ensures Wrong(answers, truth) == |(set i | 0 <= i < |answers| && answers[i].Some? && answers[i].value != truth)|
  {
    if answers != [] {
      var n := |answers| - 1;
      WrongAreThoseWhoDiffer(answers[..n], truth);
      var before := set i | 0 <= i < n && answers[..n][i].Some? && answers[..n][i].value != truth;
      var all := set i | 0 <= i < |answers| && answers[i].Some? && answers[i].value != truth;
      assert all == if answers[n].Some? && answers[n].value != truth then before + {n} else before;
    }
  }

  lemma {:induction false} WrongVotes(answers: seq<Option<Address>>, truth: Address, a: Address)
    requires a != truth
    ensures Votes(Valid(answers), a) <= Wrong(answers, truth)
  {
    if answers != [] {
      WrongVotes(answers[..|answers| - 1], truth, a);
    }
  }

  /** Fewer than `quorum` providers agreeing on a wrong address never decide, however
      many others fail; in particular fewer than `quorum` wrong providers never do. */
  lemma TooFewWrongNeverDecide(answers: seq<Option<Address>>, quorum: nat, truth: Address, a: Address)
    requires Accepts(Valid(answers), quorum, a)
    ensures a == truth || Wrong(answers, truth) >= quorum
  {
    if a != truth { WrongVotes(answers, truth, a); }
  }

  /** The result does not depend on the order in which the answers arrive. */
  lemma ArrivalDoesNotMatter(answers: seq<Address>, permuted: seq<Address>, quorum: nat, a: Address)
    requires multiset(answers) == multiset(permuted)
    ensures Accepts(answers, quorum, a) <==> Accepts(permuted, quorum, a)
  {
    assert forall b :: Votes(answers, b) == Votes(permuted, b);
  }

  /** A quorum that NewDiscoverer admits is reached when all providers agree. */
  lemma UnanimityDecides(n: nat, quorum: nat, a: Address)
    requires 1 <= quorum <= n
    ensures Accepts(seq(n, _ => a), quorum, a)
  {
    Unanimous(n, a);
  }

  lemma {:induction false} Unanimous(n: nat, a: Address)
    ensures multiset(seq(n, _ => a)) == multiset{}[a := n]
  {
    if n > 0 {
      Unanimous(n - 1, a);
      assert seq(n, _ => a) == seq(n - 1, _ => a) + [a];
    }
  }
}
