// The governance service: proposals with a status, votes with a power, and a tally that
// is recomputed from the recorded votes.
module Governance {
  import opened Ledgers

  datatype Status = Pending | Active | Succeeded | Defeated | Executed

  datatype VoteKind = For | Against | Abstain

  // Database keys; accounts are identified by their address.
  type Id = nat

  datatype Vote = Vote(proposal: Id, voter: Address, kind: VoteKind, power: nat)

  datatype Proposal = Proposal(number: int, status: Status, forVotes: int, againstVotes: int, quorum: int)

  datatype Answer = Accepted | NotFound | BadRequest

  // ---- Specification

  datatype Registry = Registry(proposals: map<Id, Proposal>, votes: seq<Vote>)

  const NEW_REGISTRY := Registry(map[], [])

  function VotesOn(votes: seq<Vote>, id: Id): seq<Vote> {
    if votes == [] then [] else
      var last := votes[|votes| - 1];
      VotesOn(votes[..|votes| - 1], id) + if last.proposal == id then [last] else []
  }

  function Power(votes: seq<Vote>, kind: VoteKind): nat {
    if votes == [] then 0 else
      var last := votes[|votes| - 1];
      Power(votes[..|votes| - 1], kind) + if last.kind == kind then last.power else 0
  }

  predicate HasVoted(votes: seq<Vote>, id: Id, voter: Address) {
    exists i :: 0 <= i < |votes| && votes[i].proposal == id && votes[i].voter == voter
  }

  // The largest number in use; numbering starts after it.
  function MaxNumber(proposals: map<Id, Proposal>): int {
    if proposals == map[] then 0 else
      var k := Largest(proposals.Keys);
      var rest := MaxNumber(proposals - {k});
      if rest < proposals[k].number then proposals[k].number else rest
  }

  function Retallied(r: Registry, id: Id): Registry
    requires id in r.proposals
  {
    var found := VotesOn(r.votes, id);
    r.(proposals := r.proposals[id :=
         r.proposals[id].(forVotes := Power(found, For), againstVotes := Power(found, Against))])
  }

  predicate Passes(p: Proposal) {
    p.forVotes + p.againstVotes >= p.quorum && p.forVotes > p.againstVotes
  }

  datatype Call =
    | Create(id: Id, quorum: int)
    | Activate(id: Id)
    | Cast(id: Id, voter: Address, kind: VoteKind, power: nat)
    | Finalize(id: Id)
    | Execute(id: Id)

  function WithStatus(r: Registry, id: Id, status: Status): Registry
    requires id in r.proposals
  {
    r.(proposals := r.proposals[id := r.proposals[id].(status := status)])
  }

  function Judge(r: Registry, c: Call): Answer {
    if c.Create? then (if c.id in r.proposals then BadRequest else Accepted)
    else if c.id !in r.proposals then NotFound
    else
      var status := r.proposals[c.id].status;
      match c
      case Activate(_) => if status == Pending then Accepted else BadRequest
      case Cast(id, voter, _, _) => if status == Active && !HasVoted(r.votes, id, voter) then Accepted else BadRequest
      case Finalize(_) => if status == Active then Accepted else BadRequest
      case Execute(_) => if status == Succeeded then Accepted else BadRequest
  }

  function Applied(r: Registry, c: Call): Registry {
    if Judge(r, c) != Accepted then r else
      match c
      case Create(id, quorum) =>
        r.(proposals := r.proposals[id := Proposal(MaxNumber(r.proposals) + 1, Pending, 0, 0, quorum)])
      case Activate(id) => WithStatus(r, id, Active)
      case Cast(id, voter, kind, power) => Retallied(r.(votes := r.votes + [Vote(id, voter, kind, power)]), id)
      case Finalize(id) =>
        var t := Retallied(r, id);
        WithStatus(t, id, if Passes(t.proposals[id]) then Succeeded else Defeated)
      case Execute(id) => WithStatus(r, id, Executed)
  }

  function Run(r: Registry, calls: seq<Call>): Registry {
    if calls == [] then r else Applied(Run(r, calls[..|calls| - 1]), calls[|calls| - 1])
  }

  // ---- The service

  class Service {
    var proposals: map<Id, Proposal>
    var votes: seq<Vote>

    ghost function View(): Registry
      reads this
    {
      Registry(proposals, votes)
    }

    constructor ()
      ensures View() == NEW_REGISTRY
    {
      proposals, votes := map[], [];
    }

    // The key is the database's choice; one in use violates its uniqueness.
    method CreateProposal(id: Id, quorum: int) returns (answer: Answer)
      modifies this`proposals
      ensures answer == Judge(old(View()), Create(id, quorum))
      ensures View() == Applied(old(View()), Create(id, quorum))
    {
      var nextNumber := MaxNumber(proposals) + 1;
      if id in proposals {
        return BadRequest;
      }
      proposals := proposals[id := Proposal(nextNumber, Pending, 0, 0, quorum)];
      return Accepted;
    }

    method ActivateProposal(id: Id) returns (answer: Answer)
      modifies this`proposals
      ensures answer == Judge(old(View()), Activate(id))
      ensures View() == Applied(old(View()), Activate(id))
    {
      if id !in proposals {
        return NotFound;
      }
      if proposals[id].status != Pending {
        return BadRequest;
      }
      proposals := proposals[id := proposals[id].(status := Active)];
      return Accepted;
    }

    method CastVote(id: Id, voter: Address, kind: VoteKind, power: nat) returns (answer: Answer)
      modifies this
      ensures answer == Judge(old(View()), Cast(id, voter, kind, power))
      ensures View() == Applied(old(View()), Cast(id, voter, kind, power))
    {
      if id !in proposals {
        return NotFound;
      }
      if proposals[id].status != Active {
        return BadRequest;
      }
      if HasVoted(votes, id, voter) {
        return BadRequest;
      }
      votes := votes + [Vote(id, voter, kind, power)];
      UpdateTally(id);
      return Accepted;
    }

    method FinalizeProposal(id: Id) returns (answer: Answer)
      modifies this`proposals
      ensures answer == Judge(old(View()), Finalize(id))
      ensures View() == Applied(old(View()), Finalize(id))
    {
      if id !in proposals {
        return NotFound;
      }
      if proposals[id].status != Active {
        return BadRequest;
      }
      UpdateTally(id);
      var refreshed := proposals[id];
      var quorumMet := refreshed.forVotes + refreshed.againstVotes >= refreshed.quorum;
      if quorumMet && refreshed.forVotes > refreshed.againstVotes {
        proposals := proposals[id := refreshed.(status := Succeeded)];
      } else {
        proposals := proposals[id := refreshed.(status := Defeated)];
      }
      return Accepted;
    }

    method ExecuteProposal(id: Id) returns (answer: Answer)
      modifies this`proposals
      ensures answer == Judge(old(View()), Execute(id))
      ensures View() == Applied(old(View()), Execute(id))
    {
      if id !in proposals {
        return NotFound;
      }
      if proposals[id].status != Succeeded {
        return BadRequest;
      }
      proposals := proposals[id := proposals[id].(status := Executed)];
      return Accepted;
    }

    method UpdateTally(id: Id)
      requires id in proposals
      modifies this`proposals
      ensures View() == Retallied(old(View()), id)
    {
      var found := VotesOn(votes, id);
      var forVotes, againstVotes := 0, 0;
      for i := 0 to |found|
        invariant forVotes == Power(found[..i], For)
        invariant againstVotes == Power(found[..i], Against)
      {
        assert found[..i + 1][..i] == found[..i];
        if found[i].kind == For {
          forVotes := forVotes + found[i].power;
        } else if found[i].kind == Against {
          againstVotes := againstVotes + found[i].power;
        }
      }
      assert found[..|found|] == found;
      proposals := proposals[id := proposals[id].(forVotes := forVotes, againstVotes := againstVotes)];
    }
  }

  // ---- Safety over all runs

  ghost predicate OneVoteEach(votes: seq<Vote>) {
    forall i, j :: 0 <= i < j < |votes| && votes[i].proposal == votes[j].proposal ==> votes[i].voter != votes[j].voter
  }

  ghost predicate Tallied(r: Registry, id: Id)
    requires id in r.proposals
  {
    var p, found := r.proposals[id], VotesOn(r.votes, id);
    p.forVotes == Power(found, For) && p.againstVotes == Power(found, Against)
  }

  // A decided proposal has the status its votes call for.
  ghost predicate Justified(r: Registry, id: Id)
    requires id in r.proposals
  {
    var p := r.proposals[id];
    && (p.status == Succeeded || p.status == Executed ==> Passes(p))
    && (p.status == Defeated ==> !Passes(p))
  }

  ghost predicate Consistent(r: Registry) {
    && OneVoteEach(r.votes)
    && (forall v :: v in r.votes ==> v.proposal in r.proposals)
    && (forall id :: id in r.proposals ==> Tallied(r, id) && Justified(r, id))
  }

  lemma VotesOnAppended(votes: seq<Vote>, v: Vote, id: Id)
    ensures VotesOn(votes + [v], id) == VotesOn(votes, id) + if v.proposal == id then [v] else []
  {
  }

  lemma {:induction false} NoVotesYet(votes: seq<Vote>, id: Id)
    requires forall v :: v in votes ==> v.proposal != id
    ensures VotesOn(votes, id) == []
  {
    if votes != [] {
      NoVotesYet(votes[..|votes| - 1], id);
    }
  }

  // What a call leaves alone: every other proposal and the votes on it.
  lemma OthersUntouched(r: Registry, c: Call, id: Id)
    requires id in r.proposals && id != c.id
    ensures var r' := Applied(r, c);
            id in r'.proposals && r'.proposals[id] == r.proposals[id] && VotesOn(r'.votes, id) == VotesOn(r.votes, id)
  {
    if c.Cast? && Judge(r, c) == Accepted {
      VotesOnAppended(r.votes, Vote(c.id, c.voter, c.kind, c.power), id);
    }
  }

  lemma CallKeepsTarget(r: Registry, c: Call)
    requires Consistent(r) && Judge(r, c) == Accepted
    ensures c.id in Applied(r, c).proposals && Tallied(Applied(r, c), c.id) && Justified(Applied(r, c), c.id)
  {
    if c.Create? {
      NoVotesYet(r.votes, c.id);
    }
  }

  lemma NewVoter(votes: seq<Vote>, v: Vote)
    requires OneVoteEach(votes) && !HasVoted(votes, v.proposal, v.voter)
    ensures OneVoteEach(votes + [v])
  {
  }

  lemma CallKeepsVotes(r: Registry, c: Call)
    requires Consistent(r)
    ensures OneVoteEach(Applied(r, c).votes)
    ensures forall v :: v in Applied(r, c).votes ==> v.proposal in Applied(r, c).proposals
  {
    if c.Cast? && Judge(r, c) == Accepted {
      NewVoter(r.votes, Vote(c.id, c.voter, c.kind, c.power));
    }
  }

  lemma CallKeepsConsistent(r: Registry, c: Call)
    requires Consistent(r)
    ensures Consistent(Applied(r, c))
  {
    if Judge(r, c) == Accepted {
      var r' := Applied(r, c);
      CallKeepsVotes(r, c);
      CallKeepsTarget(r, c);
      forall id | id in r'.proposals ensures Tallied(r', id) && Justified(r', id) {
        if id != c.id {
          OthersUntouched(r, c, id);
        }
      }
    }
  }

  // On every run: stored tallies are the sums over the recorded votes, nobody votes twice
  // on a proposal, and a proposal has succeeded or been executed only with a majority and
  // a quorum of its recorded votes (and been defeated only without).
  lemma {:induction false} RunConsistent(calls: seq<Call>)
    ensures Consistent(Run(NEW_REGISTRY, calls))
  {
    if calls != [] {
      RunConsistent(calls[..|calls| - 1]);
      CallKeepsConsistent(Run(NEW_REGISTRY, calls[..|calls| - 1]), calls[|calls| - 1]);
    }
  }

  // An accepted vote is recorded and adds its power to its own side, and nothing else.
  lemma CastCounts(r: Registry, id: Id, voter: Address, kind: VoteKind, power: nat)
    requires Consistent(r) && Judge(r, Cast(id, voter, kind, power)) == Accepted
    ensures var r' := Applied(r, Cast(id, voter, kind, power));
            && id in r.proposals && id in r'.proposals
            && var p, p' := r.proposals[id], r'.proposals[id];
            && p'.forVotes == p.forVotes + (if kind == For then power else 0)
            && p'.againstVotes == p.againstVotes + (if kind == Against then power else 0)
            && p'.status == Active
            && HasVoted(r'.votes, id, voter)
            && Judge(r', Cast(id, voter, kind, power)) == BadRequest
  {
    var v := Vote(id, voter, kind, power);
    var r' := Applied(r, Cast(id, voter, kind, power));
    VotesOnAppended(r.votes, v, id);
    var found := VotesOn(r.votes, id);
    assert (found + [v])[..|found|] == found;
    assert Tallied(r, id);
    assert r'.votes[|r.votes|] == v;
  }

  // ---- Status over time

  predicate Edge(s: Status, s': Status) {
    || (s == Pending && s' == Active)
    || (s == Active && (s' == Succeeded || s' == Defeated))
    || (s == Succeeded && s' == Executed)
  }

  predicate Reaches(s: Status, s': Status) {
    s == s' || Edge(s, s') || s == Pending || (s == Active && s' == Executed)
  }

  predicate Closed(s: Status) {
    s != Pending && s != Active
  }

  // One call moves a status along one edge at most, and once voting has closed it leaves
  // votes, tallies and quorum as they are.
  ghost predicate Advances(r: Registry, r': Registry, id: Id)
    requires id in r.proposals && id in r'.proposals
  {
    var p, p' := r.proposals[id], r'.proposals[id];
    && p'.quorum == p.quorum && p'.number == p.number
    && (Closed(p.status) ==>
          && VotesOn(r'.votes, id) == VotesOn(r.votes, id)
          && p'.forVotes == p.forVotes && p'.againstVotes == p.againstVotes)
  }

  lemma CallAdvances(r: Registry, c: Call, id: Id)
    requires Consistent(r) && id in r.proposals
    ensures id in Applied(r, c).proposals
    ensures Applied(r, c).proposals[id].status == r.proposals[id].status
         || Edge(r.proposals[id].status, Applied(r, c).proposals[id].status)
    ensures Advances(r, Applied(r, c), id)
  {
    if id != c.id {
      OthersUntouched(r, c, id);
    }
  }

  // Over any run from any reachable state.
  lemma {:induction false} RunAdvances(before: seq<Call>, calls: seq<Call>, id: Id)
    requires id in Run(NEW_REGISTRY, before).proposals
    ensures var r := Run(NEW_REGISTRY, before);
            var r' := Run(r, calls);
            && Consistent(r')
            && id in r'.proposals
            && Reaches(r.proposals[id].status, r'.proposals[id].status)
            && Advances(r, r', id)
  {
    var r := Run(NEW_REGISTRY, before);
    if calls == [] {
      RunConsistent(before);
    } else {
      var earlier := calls[..|calls| - 1];
      RunAdvances(before, earlier, id);
      CallAdvances(Run(r, earlier), calls[|calls| - 1], id);
      CallKeepsConsistent(Run(r, earlier), calls[|calls| - 1]);
    }
  }

  // ---- One proposal at a time

  // What becomes of a proposal by the calls that name it: nothing until it is created;
  // then its status, the votes on it and the quorum asked for.
  datatype Life = NotYet | Life(status: Status, votes: seq<Vote>, quorum: int)

  predicate Carried(votes: seq<Vote>, quorum: int) {
    && Power(votes, For) > Power(votes, Against)
    && Power(votes, For) + Power(votes, Against) >= quorum
  }

  function Lived(l: Life, c: Call): Life {
    match (l, c)
    case (NotYet, Create(_, quorum)) => Life(Pending, [], quorum)
    case (Life(Pending, votes, quorum), Activate(_)) => Life(Active, votes, quorum)
    case (Life(Active, votes, quorum), Cast(id, voter, kind, power)) =>
      if exists v :: v in votes && v.voter == voter then l
      else Life(Active, votes + [Vote(id, voter, kind, power)], quorum)
    case (Life(Active, votes, quorum), Finalize(_)) =>
      Life(if Carried(votes, quorum) then Succeeded else Defeated, votes, quorum)
    case (Life(Succeeded, votes, quorum), Execute(_)) => Life(Executed, votes, quorum)
    case _ => l
  }

  function LifeOf(calls: seq<Call>, id: Id): Life {
    if calls == [] then NotYet else
      var earlier, c := LifeOf(calls[..|calls| - 1], id), calls[|calls| - 1];
      if c.id == id then Lived(earlier, c) else earlier
  }

  // The registry holds of a proposal what its life says.
  ghost predicate Shows(r: Registry, id: Id, l: Life) {
    match l
    case NotYet => id !in r.proposals
    case Life(status, votes, quorum) =>
      && id in r.proposals
      && r.proposals[id].status == status
      && r.proposals[id].quorum == quorum
      && r.proposals[id].forVotes == Power(votes, For)
      && r.proposals[id].againstVotes == Power(votes, Against)
      && VotesOn(r.votes, id) == votes
  }

  lemma {:induction false} VotedIff(votes: seq<Vote>, id: Id, voter: Address)
    ensures HasVoted(votes, id, voter) <==> exists v :: v in VotesOn(votes, id) && v.voter == voter
  {
    if votes != [] {
      var earlier, last := votes[..|votes| - 1], votes[|votes| - 1];
      VotedIff(earlier, id, voter);
      assert forall i :: 0 <= i < |earlier| ==> earlier[i] == votes[i];
      assert VotesOn(votes, id) == VotesOn(earlier, id) + if last.proposal == id then [last] else [];
    }
  }

  lemma CreateLives(r: Registry, id: Id, quorum: int, l: Life)
    requires Consistent(r) && Shows(r, id, l)
    ensures Shows(Applied(r, Create(id, quorum)), id, Lived(l, Create(id, quorum)))
  {
    if id !in r.proposals {
      NoVotesYet(r.votes, id);
    }
  }

  lemma CastLives(r: Registry, c: Call, l: Life)
    requires c.Cast? && Shows(r, c.id, l)
    ensures Shows(Applied(r, c), c.id, Lived(l, c))
  {
    VotedIff(r.votes, c.id, c.voter);
    if Judge(r, c) == Accepted {
      CastAppends(r, c);
      assert Lived(l, c) == Life(Active, l.votes + [Vote(c.id, c.voter, c.kind, c.power)], l.quorum);
    } else {
      assert Lived(l, c) == l;
    }
  }

  lemma CastAppends(r: Registry, c: Call)
    requires c.Cast? && Judge(r, c) == Accepted
    ensures c.id in r.proposals && c.id in Applied(r, c).proposals
    ensures var votes := VotesOn(r.votes, c.id) + [Vote(c.id, c.voter, c.kind, c.power)];
            && VotesOn(Applied(r, c).votes, c.id) == votes
            && Applied(r, c).proposals[c.id]
               == r.proposals[c.id].(forVotes := Power(votes, For), againstVotes := Power(votes, Against))
  {
    VotesOnAppended(r.votes, Vote(c.id, c.voter, c.kind, c.power), c.id);
  }

  lemma StatusLives(r: Registry, c: Call, l: Life)
    requires (c.Activate? || c.Finalize? || c.Execute?) && Shows(r, c.id, l)
    ensures Shows(Applied(r, c), c.id, Lived(l, c))
  {
  }

  lemma TargetLives(r: Registry, c: Call, l: Life)
    requires Consistent(r) && Shows(r, c.id, l)
    ensures Shows(Applied(r, c), c.id, Lived(l, c))
  {
    match c
    case Create(id, quorum) => CreateLives(r, id, quorum, l);
    case Cast(_, _, _, _) => CastLives(r, c, l);
    case _ => StatusLives(r, c, l);
  }

  // Accepted is what changes the life of the proposal named, not found what has none.
  lemma TargetAnswered(r: Registry, c: Call, l: Life)
    requires Shows(r, c.id, l)
    ensures Judge(r, c) == if Lived(l, c) != l then Accepted
                           else if l == NotYet then NotFound else BadRequest
  {
    if c.Cast? {
      VotedIff(r.votes, c.id, c.voter);
    }
  }

  lemma OthersLive(r: Registry, c: Call, id: Id, l: Life)
    requires Shows(r, id, l) && c.id != id
    ensures Shows(Applied(r, c), id, l)
  {
    if id in r.proposals {
      OthersUntouched(r, c, id);
    }
  }

  // On every run, each proposal stands where its own calls have brought it: those on other
  // proposals make no difference, and every call is answered accordingly.
  lemma {:induction false} ProposalDecided(calls: seq<Call>, id: Id)
    ensures Shows(Run(NEW_REGISTRY, calls), id, LifeOf(calls, id))
  {
    if calls != [] {
      var earlier, c := calls[..|calls| - 1], calls[|calls| - 1];
      ProposalDecided(earlier, id);
      RunConsistent(earlier);
      if c.id == id {
        TargetLives(Run(NEW_REGISTRY, earlier), c, LifeOf(earlier, id));
      } else {
        OthersLive(Run(NEW_REGISTRY, earlier), c, id, LifeOf(earlier, id));
      }
    }
  }

  lemma AnswerDecided(calls: seq<Call>, c: Call)
    ensures var l := LifeOf(calls, c.id);
            Judge(Run(NEW_REGISTRY, calls), c) == if Lived(l, c) != l then Accepted
                                                  else if l == NotYet then NotFound else BadRequest
  {
    ProposalDecided(calls, c.id);
    TargetAnswered(Run(NEW_REGISTRY, calls), c, LifeOf(calls, c.id));
  }

  // The quorum named when the proposal was created: by the first call to do so.
  function QuorumAsked(calls: seq<Call>, id: Id): Option<int> {
    if calls == [] then None else
      var earlier, c := QuorumAsked(calls[..|calls| - 1], id), calls[|calls| - 1];
      if earlier == None && c.Create? && c.id == id then Some(c.quorum) else earlier
  }

  lemma {:induction false} LifeHasQuorum(calls: seq<Call>, id: Id)
    ensures LifeOf(calls, id) == NotYet <==> QuorumAsked(calls, id) == None
    ensures LifeOf(calls, id).Life? ==> QuorumAsked(calls, id) == Some(LifeOf(calls, id).quorum)
  {
    if calls != [] {
      LifeHasQuorum(calls[..|calls| - 1], id);
    }
  }

  // A proposal exists once it has been asked for, with the quorum asked for, for good.
  lemma QuorumKept(calls: seq<Call>, id: Id)
    ensures var r := Run(NEW_REGISTRY, calls);
            && (id in r.proposals <==> QuorumAsked(calls, id).Some?)
            && (id in r.proposals ==> QuorumAsked(calls, id) == Some(r.proposals[id].quorum))
  {
    ProposalDecided(calls, id);
    LifeHasQuorum(calls, id);
  }

  // A new proposal is pending, without votes and with the quorum asked for.
  lemma CreatedPending(calls: seq<Call>, id: Id, quorum: int)
    requires QuorumAsked(calls, id) == None
    ensures var r, r' := Run(NEW_REGISTRY, calls), Run(NEW_REGISTRY, calls + [Create(id, quorum)]);
            && Judge(r, Create(id, quorum)) == Accepted
            && id in r'.proposals
            && r'.proposals[id] == Proposal(r'.proposals[id].number, Pending, 0, 0, quorum)
            && VotesOn(r'.votes, id) == []
  {
    var c := Create(id, quorum);
    assert (calls + [c])[..|calls|] == calls;
    LifeHasQuorum(calls, id);
    AnswerDecided(calls, c);
    ProposalDecided(calls + [c], id);
  }

  // Finalizing recounts whatever tally was stored, and decides by the recount.
  lemma FinalizeRecounts(r: Registry, id: Id)
    requires id in r.proposals && r.proposals[id].status == Active
    ensures var r' := Applied(r, Finalize(id));
            && id in r'.proposals && Tallied(r', id)
            && r'.proposals[id].status ==
               if Carried(VotesOn(r.votes, id), r.proposals[id].quorum) then Succeeded else Defeated
  {
  }

  // Voting on an active proposal is decided exactly by the recorded votes and the quorum
  // asked for.
  lemma FinalizeDecided(calls: seq<Call>, id: Id)
    requires id in Run(NEW_REGISTRY, calls).proposals && Run(NEW_REGISTRY, calls).proposals[id].status == Active
    ensures var r := Run(NEW_REGISTRY, calls);
            var r', found := Applied(r, Finalize(id)), VotesOn(r.votes, id);
            && Judge(r, Finalize(id)) == Accepted
            && id in r'.proposals && QuorumAsked(calls, id).Some?
            && r'.proposals[id].status ==
               if Power(found, For) > Power(found, Against)
                  && Power(found, For) + Power(found, Against) >= QuorumAsked(calls, id).value
               then Succeeded else Defeated
  {
    ProposalDecided(calls, id);
    LifeHasQuorum(calls, id);
    AnswerDecided(calls, Finalize(id));
    FinalizeRecounts(Run(NEW_REGISTRY, calls), id);
  }

  // What execution rests on: a majority among the recorded votes and the quorum asked for
  // when the proposal was created, and that for good.
  lemma ExecutedWasCarried(before: seq<Call>, calls: seq<Call>, id: Id)
    requires id in Run(NEW_REGISTRY, before).proposals && Run(NEW_REGISTRY, before).proposals[id].status == Executed
    ensures var r := Run(NEW_REGISTRY, before);
            var r' := Run(r, calls);
            var found := VotesOn(r.votes, id);
            && Power(found, For) > Power(found, Against)
            && QuorumAsked(before, id).Some?
            && Power(found, For) + Power(found, Against) >= QuorumAsked(before, id).value
            && id in r'.proposals
            && r'.proposals[id] == r.proposals[id]
            && VotesOn(r'.votes, id) == found
  {
    RunConsistent(before);
    QuorumKept(before, id);
    RunAdvances(before, calls, id);
    assert Tallied(Run(NEW_REGISTRY, before), id) && Justified(Run(NEW_REGISTRY, before), id);
  }

  // ---- Numbering

  lemma {:induction false} MaxNumberBounds(proposals: map<Id, Proposal>, id: Id)
    requires id in proposals
    ensures proposals[id].number <= MaxNumber(proposals)
  {
    var k := Largest(proposals.Keys);
    if id != k {
      MaxNumberBounds(proposals - {k}, id);
    }
  }

  // A number is for good, and a new one exceeds all others.
  lemma NumberGiven(r: Registry, c: Call, id: Id)
    requires id in Applied(r, c).proposals
    ensures id in r.proposals ==> Applied(r, c).proposals[id].number == r.proposals[id].number
    ensures id !in r.proposals ==> id == c.id && Applied(r, c).proposals[id].number == MaxNumber(r.proposals) + 1
  {
  }

  // No two proposals ever share a number.
  lemma {:induction false} NumbersDistinct(calls: seq<Call>, id: Id, id': Id)
    requires id != id' && id in Run(NEW_REGISTRY, calls).proposals && id' in Run(NEW_REGISTRY, calls).proposals
    ensures Run(NEW_REGISTRY, calls).proposals[id].number != Run(NEW_REGISTRY, calls).proposals[id'].number
  {
    if calls != [] {
      var earlier, c := calls[..|calls| - 1], calls[|calls| - 1];
      var r := Run(NEW_REGISTRY, earlier);
      NumberGiven(r, c, id);
      NumberGiven(r, c, id');
      if id in r.proposals && id' in r.proposals {
        NumbersDistinct(earlier, id, id');
      } else if id in r.proposals {
        MaxNumberBounds(r.proposals, id);
      } else {
        MaxNumberBounds(r.proposals, id');
      }
    }
  }

  lemma {:induction false} MaxNumberAtMost(proposals: map<Id, Proposal>, n: nat)
    requires forall id :: id in proposals ==> proposals[id].number <= n
    ensures MaxNumber(proposals) <= n
  {
    if proposals != map[] {
      MaxNumberAtMost(proposals - {Largest(proposals.Keys)}, n);
    }
  }

  ghost predicate Numbered(proposals: map<Id, Proposal>) {
    && (forall id :: id in proposals ==> 1 <= proposals[id].number <= |proposals|)
    && (proposals != map[] ==> exists id :: id in proposals && proposals[id].number == |proposals|)
  }

  lemma NumberedMax(proposals: map<Id, Proposal>)
    requires Numbered(proposals)
    ensures MaxNumber(proposals) == |proposals|
  {
    MaxNumberAtMost(proposals, |proposals|);
    if proposals != map[] {
      var id :| id in proposals && proposals[id].number == |proposals|;
      MaxNumberBounds(proposals, id);
    }
  }

  lemma OneMoreNumbered(ps: map<Id, Proposal>, id: Id, p: Proposal)
    requires Numbered(ps) && id !in ps && p.number == |ps| + 1
    ensures Numbered(ps[id := p])
  {
    assert ps[id := p].Keys == ps.Keys + {id};
    assert |ps[id := p]| == |ps| + 1;
    assert ps[id := p][id].number == |ps[id := p]|;
  }

  lemma SameNumbers(ps: map<Id, Proposal>, ps': map<Id, Proposal>)
    requires Numbered(ps) && ps'.Keys == ps.Keys
    requires forall id :: id in ps ==> ps'[id].number == ps[id].number
    ensures Numbered(ps')
  {
    assert |ps'| == |ps'.Keys| == |ps.Keys| == |ps|;
    if ps' != map[] {
      assert ps != map[];
      var id :| id in ps && ps[id].number == |ps|;
      assert id in ps' && ps'[id].number == |ps'|;
    }
  }

  lemma StepNumbered(r: Registry, c: Call)
    requires Numbered(r.proposals)
    ensures Numbered(Applied(r, c).proposals)
  {
    if c.Create? && c.id !in r.proposals {
      NumberedMax(r.proposals);
      OneMoreNumbered(r.proposals, c.id, Applied(r, c).proposals[c.id]);
    } else {
      forall id | id in r.proposals
        ensures id in Applied(r, c).proposals && Applied(r, c).proposals[id].number == r.proposals[id].number
      {
      }
      SameNumbers(r.proposals, Applied(r, c).proposals);
    }
  }

  // Proposals are numbered from one, in the order of their creation, without gaps.
  lemma {:induction false} NumbersConsecutive(calls: seq<Call>, id: Id, quorum: int)
    ensures var r := Run(NEW_REGISTRY, calls);
            && Numbered(r.proposals)
            && (id !in r.proposals ==> Applied(r, Create(id, quorum)).proposals[id].number == |r.proposals| + 1)
  {
    var r := Run(NEW_REGISTRY, calls);
    if calls != [] {
      var earlier := calls[..|calls| - 1];
      NumbersConsecutive(earlier, id, quorum);
      StepNumbered(Run(NEW_REGISTRY, earlier), calls[|calls| - 1]);
    }
    NumberedMax(r.proposals);
  }
}
