/** The approval store as an object, and its ledger over whole histories. */
module ApprovalStores {
  import opened Basics
  import opened Approvals

  class ApprovalStore {
    var approvals: map<ApprovalId, Approval>
    var sources: map<string, ApprovalId>
    var identities: map<string, bool>

    function Contents(): Ledger
      reads this
    {
      Ledger(approvals, sources, identities)
    }

    constructor ()
      ensures Contents() == EmptyLedger()
    {
      approvals, sources, identities := map[], map[], map[TARGET := true];
    }

    /** `id` is the identifier drawn for the new approval. */
    method Create(id: ApprovalId, p: Proposal) returns (record: Approval)
      requires id !in approvals
      modifies this
      ensures Contents() == Next(old(Contents()), Event.Create(id, p))
      ensures record == Approval(p, None, None) && approvals == old(approvals)[id := record]
      ensures sources == old(sources) && identities == old(identities)
    {
      record := Approval(p, None, None);
      approvals := approvals[id := record];
    }

    /** Creates the one proposal of a trace, or answers with the one it has. */
    method CreateOnce(trace: string, id: ApprovalId, p: Proposal) returns (record: Approval)
      requires id !in approvals && Linked(Contents())
      modifies this
      ensures Contents() == Next(old(Contents()), Event.CreateOnce(trace, id, p)) && Linked(Contents())
      ensures identities == old(identities)
      ensures trace in sources && sources[trace] in approvals && record == approvals[sources[trace]]
      ensures trace in old(sources) ==> sources == old(sources) && approvals == old(approvals)
      ensures trace !in old(sources) ==>
                && sources == old(sources)[trace := id]
                && approvals == old(approvals)[id := Approval(p, None, None)]
    {
      CreateOnceGrows(Contents(), trace, id, p);
      if trace in sources {
        return approvals[sources[trace]];
      }
      record := Approval(p, None, None);
      approvals := approvals[id := record];
      sources := sources[trace := id];
    }

    /**
     A first decision is recorded with its effect; anything else but the same verdict again is refused.
     An approval takes effect only on the allow-listed proposal, and only on an identity that is known.
     */
    method Decide(id: ApprovalId, d: Decision) returns (ruling: Ruling)
      modifies this
      ensures Contents() == Next(old(Contents()), Event.Decide(id, d))
      ensures sources == old(sources) && (ruling.Done? ==> ruling.ledger == Contents())
      ensures !ruling.Done? ==> Contents() == old(Contents())
      ensures ruling.NotFound? <==>
                || id !in old(approvals)
                || (old(approvals)[id].decision.None? && d.verdict == Approve && TARGET !in old(identities)
                    && old(approvals)[id].proposal.action == ACTION && old(approvals)[id].proposal.target == TARGET)
      ensures ruling.Conflict? <==>
                && id in old(approvals)
                && match old(approvals)[id].decision
                   case Some(first) => first.verdict != d.verdict
                   case None =>
                     && d.verdict == Approve
                     && !(old(approvals)[id].proposal.action == ACTION && old(approvals)[id].proposal.target == TARGET)
      ensures ruling.Done? && old(approvals)[id].decision.Some? ==> Contents() == old(Contents())
      ensures ruling.Done? && old(approvals)[id].decision.None? ==>
                && id in approvals && approvals[id].decision == Some(d)
                && approvals[id].proposal == old(approvals)[id].proposal
                && approvals == old(approvals)[id := approvals[id]]
                && (d.verdict != Approve ==> approvals[id].effect == None && identities == old(identities))
                && (d.verdict == Approve ==>
                      && TARGET in old(identities) && identities == old(identities)[TARGET := false]
                      && approvals[id].effect == Some(if old(identities)[TARGET] then Disabled else AlreadyDisabled))
    {
      if id !in approvals {
        return NotFound;
      }
      var row := approvals[id];
      if row.decision.Some? {
        if row.decision.value.verdict == d.verdict {
          return Done(Contents());
        }
        return Conflict;
      }
      var effect: Option<Effect> := None;
      if d.verdict.Approve? {
        if row.proposal.action != ACTION || row.proposal.target != TARGET {
          return Conflict;
        }
        if row.proposal.target !in identities {
          return NotFound;
        }
        if identities[row.proposal.target] {
          identities := identities[row.proposal.target := false];
          effect := Some(Disabled);
        } else {
          effect := Some(AlreadyDisabled);
        }
      }
      approvals := approvals[id := row.(decision := Some(d), effect := effect)];
      ruling := Done(Contents());
    }

    /** None stands for an unknown identity. */
    method IdentityState(identity: string) returns (enabled: Option<bool>)
      ensures enabled == if identity in identities then Some(identities[identity]) else None
      ensures Sound(Contents()) ==>
                && (enabled.Some? <==> identity == TARGET)
                && (enabled == Some(false) <==> identity == TARGET && |Disabling(Contents())| == 1)
    {
      enabled := if identity in identities then Some(identities[identity]) else None;
    }
  }

  // ---- Histories of the ledger.

  datatype Event =
    | Create(id: ApprovalId, proposal: Proposal)
    | CreateOnce(trace: string, id: ApprovalId, proposal: Proposal)
    | Decide(id: ApprovalId, decision: Decision)

  /** Identifiers that are drawn are new; everything else may be attempted at any time. */
  ghost predicate Enabled(l: Ledger, e: Event) {
    e.Decide? || e.id !in l.approvals
  }

  function Next(l: Ledger, e: Event): Ledger {
    match e
    case Create(id, p) => Created(l, id, p)
    case CreateOnce(t, id, p) => CreatedOnce(l, t, id, p)
    case Decide(id, d) =>
      var ruling := Decided(l, id, d);
      if ruling.Done? then ruling.ledger else l
  }

  datatype History = Empty | Then(past: History, event: Event)

  function Final(h: History): Ledger {
    if h.Empty? then EmptyLedger() else Next(Final(h.past), h.event)
  }

  ghost predicate Valid(h: History) {
    h.Empty? || (Valid(h.past) && Enabled(Final(h.past), h.event))
  }

  /** The approvals that disabled the identity. */
  ghost function Disabling(l: Ledger): set<ApprovalId> {
    set a | a in l.approvals && l.approvals[a].effect == Some(Disabled)
  }

  ghost predicate Sound(l: Ledger) {
    && l.identities.Keys == {TARGET}
    && (l.identities[TARGET] <==> Disabling(l) == {})
    && |Disabling(l)| <= 1
    && (forall a | a in l.approvals :: l.approvals[a].effect.Some? <==>
          l.approvals[a].decision.Some? && l.approvals[a].decision.value.verdict == Approve)
    && (forall a | a in l.approvals && l.approvals[a].effect.Some? ::
          l.approvals[a].proposal.action == ACTION && l.approvals[a].proposal.target == TARGET)
  }

  lemma SoundDecision(l: Ledger, id: ApprovalId, d: Decision)
    requires Sound(l) && Decided(l, id, d).Done?
    ensures Sound(Decided(l, id, d).ledger)
  {
    var m := Decided(l, id, d).ledger;
    if l.approvals[id].decision.None? && d.verdict.Approve? && l.identities[TARGET] {
      assert Disabling(m) == {id};
    } else {
      assert Disabling(m) == Disabling(l);
    }
  }

  lemma SoundStep(l: Ledger, e: Event)
    requires Sound(l) && Enabled(l, e)
    ensures Sound(Next(l, e))
  {
    if e.Decide? {
      if Decided(l, e.id, e.decision).Done? {
        SoundDecision(l, e.id, e.decision);
      }
    } else {
      assert Disabling(Next(l, e)) == Disabling(l);
    }
  }

  /**
   Over every history the identity is disabled exactly when precisely one approval has the effect
   `disabled`, and only approved, allow-listed proposals have an effect.
   */
  lemma {:induction false} DisabledExactlyOnce(h: History)
    requires Valid(h)
    ensures Sound(Final(h))
    ensures !Final(h).identities[TARGET] <==> |Disabling(Final(h))| == 1
  {
    if h.Then? {
      DisabledExactlyOnce(h.past);
      SoundStep(Final(h.past), h.event);
    } else {
      assert Disabling(Final(h)) == {};
    }
  }

  /** Only a first approval of an allow-listed proposal changes the identity. */
  lemma OnlyApprovalDisables(l: Ledger, e: Event)
    requires Next(l, e).identities != l.identities
    ensures e.Decide? && e.decision.verdict.Approve? && e.id in l.approvals
    ensures l.approvals[e.id].decision == None
    ensures l.approvals[e.id].proposal.action == ACTION && l.approvals[e.id].proposal.target == TARGET
    ensures Next(l, e).identities == l.identities[TARGET := false]
    ensures Next(l, e).approvals[e.id].effect == Some(Disabled)
  {
  }

  /** A final decision never changes: the same verdict again is a no-op, another one a conflict. */
  lemma FinalDecision(l: Ledger, e: Event, a: ApprovalId)
    requires Enabled(l, e) && a in l.approvals && l.approvals[a].decision.Some?
    ensures a in Next(l, e).approvals && Next(l, e).approvals[a] == l.approvals[a]
    ensures e.Decide? && e.id == a ==> Next(l, e) == l
    ensures e.Decide? && e.id == a ==>
              (Decided(l, a, e.decision) == Conflict <==> e.decision.verdict != l.approvals[a].decision.value.verdict)
  {
  }

  /** Decisions on the same approval: the first verdict decides the answer of every later one. */
  lemma {:induction false} DecisionStands(h: History, later: History, a: ApprovalId)
    requires Valid(later) && Continues(h, later)
    requires a in Final(h).approvals && Final(h).approvals[a].decision.Some?
    ensures a in Final(later).approvals && Final(later).approvals[a] == Final(h).approvals[a]
  {
    if later != h {
      DecisionStands(h, later.past, a);
      FinalDecision(Final(later.past), later.event, a);
    }
  }

  ghost predicate Continues(h: History, later: History) {
    later == h || (later.Then? && Continues(h, later.past))
  }

  /** In every history an approval has an effect if and only if it was approved, and then on the one proposal. */
  lemma EffectExactly(h: History, a: ApprovalId)
    requires Valid(h) && a in Final(h).approvals
    ensures var x := Final(h).approvals[a];
      && (x.effect.Some? <==> x.decision.Some? && x.decision.value.verdict == Approve)
      && (x.effect.Some? ==> x.proposal.action == ACTION && x.proposal.target == TARGET)
  {
    DisabledExactlyOnce(h);
  }

  /** A first decision is recorded, in every history, except that approving anything off the list leaves it open. */
  lemma FirstDecisionRecorded(h: History, a: ApprovalId, d: Decision)
    requires Valid(h) && a in Final(h).approvals && Final(h).approvals[a].decision.None?
    ensures var l, m := Final(h), Final(Then(h, Decide(a, d)));
      && Valid(Then(h, Decide(a, d))) && a in m.approvals && m.approvals == l.approvals[a := m.approvals[a]]
      && m.approvals[a].proposal == l.approvals[a].proposal && m.sources == l.sources
      && (m.approvals[a].decision == Some(d) <==>
            || d.verdict != Approve
            || (l.approvals[a].proposal.action == ACTION && l.approvals[a].proposal.target == TARGET))
      && (m.approvals[a].decision != Some(d) ==> m == l)
      && (d.verdict != Approve ==> m.identities == l.identities)
  {
    DisabledExactlyOnce(h);
  }

  /** What was rejected or escalated stays so, and never has an effect, over every later history. */
  lemma RefusedForGood(h: History, later: History, a: ApprovalId)
    requires Valid(later) && Continues(h, later) && a in Final(h).approvals
    requires Final(h).approvals[a].decision.Some? && Final(h).approvals[a].decision.value.verdict != Approve
    ensures a in Final(later).approvals && Final(later).approvals[a].decision == Final(h).approvals[a].decision
    ensures Final(later).approvals[a].effect == None
  {
    DecisionStands(h, later, a);
    EffectExactly(later, a);
  }

  /** An approval of anything off the allow-list, however it got into the table, changes nothing. */
  lemma OffListRefused(l: Ledger, id: ApprovalId, d: Decision)
    requires id in l.approvals && l.approvals[id].decision.None? && d.verdict.Approve?
    requires l.approvals[id].proposal.action != ACTION || l.approvals[id].proposal.target != TARGET
    ensures Decided(l, id, d) == Conflict && Next(l, Decide(id, d)) == l
  {
  }

  /** Every trace has at most one approval of its own, over every history. */
  lemma {:induction false} SourcesLinked(h: History)
    requires Valid(h)
    ensures Linked(Final(h))
  {
    if h.Then? {
      SourcesLinked(h.past);
      var l := Final(h.past);
      match h.event
      case Create(id, p) => CreateGrows(l, id, p);
      case CreateOnce(t, id, p) => CreateOnceGrows(l, t, id, p);
      case Decide(id, d) => if Decided(l, id, d).Done? { DecideGrows(l, id, d); }
    }
  }
}
