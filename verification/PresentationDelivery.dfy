/** The presentation contracts sent to a connection that has just passed the barrier
    (apps/world-server/src/session_runtime.rs). */
module PresentationDelivery {
  import opened Lattice

  datatype Message = Terrain(coord: Coord) | Policy(coord: Coord) | Water(coord: Coord)

  /** What a connection supports, how many of its sends succeed before one fails, and the quadrants whose
      contracts the scheduler holds. */
  datatype Link = Link(policies: bool, water: bool, sends: nat, held: set<Coord>)

  datatype Sent = All | Failed | NotHeld(coord: Coord)

  /** The contracts of one quadrant: terrain before its policy before its water. */
  function ContractsOf(link: Link, c: Coord): seq<Message> {
    [Terrain(c)] + (if link.policies then [Policy(c)] else []) + (if link.water then [Water(c)] else [])
  }

  /** The contracts of the quadrants, one quadrant after the other. */
  function Contracts(link: Link, quadrants: seq<Coord>): seq<Message> {
    if quadrants == [] then []
    else Contracts(link, quadrants[..|quadrants| - 1]) + ContractsOf(link, quadrants[|quadrants| - 1])
  }

  lemma {:induction false} ContractsPrefix(link: Link, quadrants: seq<Coord>, n: nat)
    requires n <= |quadrants|
    ensures Contracts(link, quadrants[..n]) <= Contracts(link, quadrants)
    decreases |quadrants| - n
  {
    if n == |quadrants| {
      assert quadrants[..n] == quadrants;
    } else {
      ContractsPrefix(link, quadrants, n + 1);
      assert quadrants[..n + 1][..n] == quadrants[..n];
    }
  }

  /** How many contracts a quadrant has on this link. */
  function Each(link: Link): nat {
    1 + (if link.policies then 1 else 0) + (if link.water then 1 else 0)
  }

  lemma {:induction false} ContractsCount(link: Link, quadrants: seq<Coord>)
    ensures |Contracts(link, quadrants)| == Each(link) * |quadrants|
  {
    if quadrants != [] {
      var earlier := quadrants[..|quadrants| - 1];
      ContractsCount(link, earlier);
      assert Each(link) * (|earlier| + 1) == Each(link) * |earlier| + Each(link);
    }
  }

  /** Every quadrant has as many contracts as its link supports: terrain first, its policy next, its water
      last, and the quadrants follow one another in their order. */
  lemma ContractsStand(link: Link, quadrants: seq<Coord>, i: nat)
    requires i < |quadrants|
    ensures var each := 1 + (if link.policies then 1 else 0) + (if link.water then 1 else 0);
            var contracts := Contracts(link, quadrants);
            && |contracts| == each * |quadrants| && each * i + each <= |contracts|
            && contracts[each * i] == Terrain(quadrants[i])
            && (link.policies ==> contracts[each * i + 1] == Policy(quadrants[i]))
            && (link.water ==> contracts[each * i + (each - 1)] == Water(quadrants[i]))
  {
    var through := quadrants[..i + 1];
    ContractsCount(link, quadrants);
    ContractsCount(link, through[..i]);
    ContractsPrefix(link, quadrants, i + 1);
    assert Contracts(link, through) == Contracts(link, through[..i]) + ContractsOf(link, quadrants[i]);
    ContractsSeen(Contracts(link, through[..i]), link, quadrants[i], Contracts(link, quadrants));
  }

  lemma ContractsSeen(before: seq<Message>, link: Link, c: Coord, all: seq<Message>)
    requires before + ContractsOf(link, c) <= all
    ensures |before| + Each(link) <= |all| && all[|before|] == Terrain(c)
    ensures link.policies ==> all[|before| + 1] == Policy(c)
    ensures link.water ==> all[|before| + (Each(link) - 1)] == Water(c)
  {
    var joined := before + ContractsOf(link, c);
    assert joined[|before|] == Terrain(c);
    assert link.policies ==> joined[|before| + 1] == Policy(c);
    assert link.water ==> joined[|before| + (Each(link) - 1)] == Water(c);
  }

  /** Sends the contracts of one quadrant, and stops at the first send that fails. */
  method SendQuadrant(link: Link, c: Coord, before: seq<Message>) returns (sent: seq<Message>, ok: bool)
    requires |before| <= link.sends
    ensures ok <==> |before + ContractsOf(link, c)| <= link.sends
    ensures ok ==> sent == before + ContractsOf(link, c)
    ensures !ok ==> sent <= before + ContractsOf(link, c) && |sent| == link.sends
  {
    sent := before;
    if |sent| == link.sends {
      return sent, false;
    }
    sent := sent + [Terrain(c)];
    if link.policies {
      if |sent| == link.sends {
        return sent, false;
      }
      sent := sent + [Policy(c)];
    }
    if link.water {
      if |sent| == link.sends {
        return sent, false;
      }
      sent := sent + [Water(c)];
    }
    ok := true;
  }

  /** Sends the contracts of the revealed quadrants in order: all of them, or up to the first send that
      fails or the first quadrant whose contracts are not held. */
  method SendContracts(link: Link, quadrants: seq<Coord>) returns (sent: seq<Message>, outcome: Sent)
    ensures sent <= Contracts(link, quadrants)
    ensures outcome == All ==> sent == Contracts(link, quadrants)
    ensures outcome == Failed ==> |sent| == link.sends < |Contracts(link, quadrants)|
    ensures outcome.NotHeld? ==> outcome.coord in quadrants && outcome.coord !in link.held
    ensures outcome == All <==>
              |Contracts(link, quadrants)| <= link.sends && forall c :: c in quadrants ==> c in link.held
  {
    sent := [];
    for i := 0 to |quadrants|
      invariant sent == Contracts(link, quadrants[..i]) && |sent| <= link.sends
      invariant forall k :: 0 <= k < i ==> quadrants[k] in link.held
    {
      ContractsPrefix(link, quadrants, i);
      ContractsPrefix(link, quadrants, i + 1);
      assert quadrants[..i + 1][..i] == quadrants[..i];
      if quadrants[i] !in link.held {
        return sent, NotHeld(quadrants[i]);
      }
      var ok;
      sent, ok := SendQuadrant(link, quadrants[i], sent);
      if !ok {
        return sent, Failed;
      }
    }
    assert quadrants[..|quadrants|] == quadrants;
    outcome := All;
  }
}
