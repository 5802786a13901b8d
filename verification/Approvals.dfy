/**
 The approval ledger (src/soc_integration/approvals.py): proposals, final decisions, and the
 one allow-listed response on a laboratory identity.
 */
module Approvals {
  import opened Basics
  import opened Alerts

  type ApprovalId = nat

  const ACTION := "disable_synthetic_account"
  const TARGET := "soc-response-test"

  datatype Verdict = Approve | Reject | Escalate

  datatype Decision = Decision(verdict: Verdict, analyst: string, note: string)

  datatype Effect = Disabled | AlreadyDisabled

  datatype Proposal = Proposal(incident: CaseId, action: string, target: string)

  /** `decision` is None while the approval is pending. */
  datatype Approval = Approval(proposal: Proposal, decision: Option<Decision>, effect: Option<Effect>)

  datatype Ledger = Ledger(
    approvals: map<ApprovalId, Approval>, sources: map<string, ApprovalId>, identities: map<string, bool>)

  /** An empty ledger; the table of identities says of each whether it is enabled. */
  function EmptyLedger(): Ledger {
    Ledger(map[], map[], map[TARGET := true])
  }

  function Created(l: Ledger, id: ApprovalId, p: Proposal): Ledger {
    l.(approvals := l.approvals[id := Approval(p, None, None)])
  }

  function CreatedOnce(l: Ledger, trace: string, id: ApprovalId, p: Proposal): Ledger {
    if trace in l.sources then l
    else Created(l, id, p).(sources := l.sources[trace := id])
  }

  datatype Ruling = Done(ledger: Ledger) | NotFound | Conflict

  function Decided(l: Ledger, id: ApprovalId, d: Decision): Ruling {
    if id !in l.approvals then NotFound
    else
      var a := l.approvals[id];
      if a.decision.Some? then
        if a.decision.value.verdict == d.verdict then Done(l) else Conflict
      else if !d.verdict.Approve? then
        Done(l.(approvals := l.approvals[id := a.(decision := Some(d), effect := None)]))
      else if a.proposal.action != ACTION || a.proposal.target != TARGET then Conflict
      else if a.proposal.target !in l.identities then NotFound
      else if l.identities[a.proposal.target] then
        Done(l.(
          approvals := l.approvals[id := a.(decision := Some(d), effect := Some(Disabled))],
          identities := l.identities[a.proposal.target := false]))
      else
        Done(l.(approvals := l.approvals[id := a.(decision := Some(d), effect := Some(AlreadyDisabled))]))
  }

  /** Source rows point at approvals, and no two at the same one. */
  ghost predicate Linked(l: Ledger) {
    && (forall t | t in l.sources :: l.sources[t] in l.approvals)
    && (forall t, u | t in l.sources && u in l.sources && l.sources[t] == l.sources[u] :: t == u)
  }

  /** Approvals are never removed and keep their proposal; traces keep their approval. */
  ghost predicate Grows(l: Ledger, m: Ledger) {
    && (forall a | a in l.approvals :: a in m.approvals && m.approvals[a].proposal == l.approvals[a].proposal)
    && (forall t | t in l.sources :: t in m.sources && m.sources[t] == l.sources[t])
  }

  lemma CreateGrows(l: Ledger, id: ApprovalId, p: Proposal)
    requires Linked(l) && id !in l.approvals
    ensures Linked(Created(l, id, p)) && Grows(l, Created(l, id, p))
  {
  }

  lemma CreateOnceGrows(l: Ledger, trace: string, id: ApprovalId, p: Proposal)
    requires Linked(l) && id !in l.approvals
    ensures var m := CreatedOnce(l, trace, id, p);
      && Linked(m) && Grows(l, m)
      && m.sources.Keys == l.sources.Keys + {trace}
      && (trace !in l.sources ==> m.approvals[m.sources[trace]].proposal == p)
  {
  }

  lemma DecideGrows(l: Ledger, id: ApprovalId, d: Decision)
    requires Linked(l) && Decided(l, id, d).Done?
    ensures var m := Decided(l, id, d).ledger; Linked(m) && Grows(l, m) && m.sources == l.sources
  {
  }
}
