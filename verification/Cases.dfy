/** How many cases one fingerprint can cost, and when a delivery ends without a case. */
module Cases {
  import opened Basics
  import opened Alerts
  import opened Enrichment
  import opened Deliveries
  import opened Protocol
  import opened Invariants
  import opened ShuffleBound
  import Http = RetryingClient

  /** TheHive's cases tagged with this fingerprint. */
  ghost function CasesOf(s: State, f: string): set<CaseId> {
    set id | id in s.world.cases && s.world.cases[id] == f
  }

  /** The worker is between its first and last create request for this fingerprint. */
  ghost predicate CreatingFor(c: Config, s: State, f: string) {
    (s.pc.Creating? || s.pc.AwaitingCase?) && s.pc.key in s.rows && Fp(c, Held(s)) == f
  }

  /** The create requests of the call at hand that were sent. */
  function Sent(pc: Pc): nat {
    if pc.Creating? then pc.posts else if pc.AwaitingCase? then pc.posts + 1 else 0
  }

  /** The case that a step creates for this fingerprint. */
  ghost function Born(c: Config, s: State, e: Event, f: string): Option<CaseId> {
    if e.SendCase? && CreatingFor(c, s, f) then e.created
    else if e.CaseAppears? && e.fingerprint == f then Some(e.id)
    else None
  }

  lemma RepliesCreateNothing(c: Config, s: State, e: Event)
    requires e.CaseReply? && !s.pc.Idle? && s.pc.key in s.rows && PostingEnabled(c, s, e)
    ensures PostingNext(c, s, e).world == s.world
  {
  }

  lemma OtherStepsCreateNothing(c: Config, s: State, e: Event)
    requires Enabled(c, s, e) && !e.SendCase? && !e.CaseAppears?
    ensures Next(c, s, e).world.cases == s.world.cases && Next(c, s, e).world.opening == s.world.opening
  {
    match PhaseOf(e)
    case Outside => assert Next(c, s, e) == OutsideNext(s, e);
    case Posting => RepliesCreateNothing(c, s, e);
    case _ => Frame(c, s, e);
  }

  lemma SendingStep(c: Config, s: State, e: Event, f: string)
    requires Enabled(c, s, e) && e.SendCase?
    ensures var n, b := Next(c, s, e), Born(c, s, e, f);
      && CasesOf(n, f) == CasesOf(s, f) + (if b.Some? then {b.value} else {})
      && (b.Some? ==> b.value !in CasesOf(s, f))
  {
    assert Next(c, s, e) == PostingNext(c, s, e);
  }

  /** A step creates at most one case, and none is ever removed. */
  lemma CasesStep(c: Config, s: State, e: Event, f: string)
    requires Enabled(c, s, e)
    ensures var n, b := Next(c, s, e), Born(c, s, e, f);
      && CasesOf(n, f) == CasesOf(s, f) + (if b.Some? then {b.value} else {})
      && |CasesOf(n, f)| == |CasesOf(s, f)| + Count(b.Some?)
  {
    var n, b := Next(c, s, e), Born(c, s, e, f);
    if e.SendCase? {
      SendingStep(c, s, e, f);
    } else if !e.CaseAppears? {
      OtherStepsCreateNothing(c, s, e);
    }
  }

  /** A create call starts where the lookup found nothing, and goes on request by request. */
  ghost predicate CallGoesOn(c: Config, s: State, n: State, e: Event, f: string) {
    || (CreatingFor(c, s, f) && n.pc == s.pc && !e.SendCase?)
    || (CreatingFor(c, s, f) && e.SendCase? && s.pc.Creating? && s.pc.posts < c.clientAttempts
        && n.pc == AwaitingCase(s.pc.key, s.pc.posts, e.created))
    || (CreatingFor(c, s, f) && e.CaseReply? && s.pc.AwaitingCase? && s.pc.posts + 1 < c.clientAttempts
        && JudgePost(c, s.pc.posts, e.caseAnswer, e.caseBody).Again? && n.pc == Creating(s.pc.key, s.pc.posts + 1))
    || (e.FindCase? && n.pc.Creating? && n.pc.posts == 0 && !CreatingFor(c, s, f) && CasesOf(s, f) == {})
  }

  lemma CallPosting(c: Config, s: State, e: Event, f: string)
    requires PhaseOf(e) == Posting && !s.pc.Idle? && s.pc.key in s.rows && PostingEnabled(c, s, e)
    requires CreatingFor(c, PostingNext(c, s, e), f)
    ensures CallGoesOn(c, s, PostingNext(c, s, e), e, f)
  {
  }

  lemma CallCorrelating(c: Config, s: State, e: Event, f: string)
    requires PhaseOf(e) == Correlating && !s.pc.Idle? && s.pc.key in s.rows && CorrelatingEnabled(c, s, e)
    requires CreatingFor(c, CorrelatingNext(c, s, e), f)
    ensures CallGoesOn(c, s, CorrelatingNext(c, s, e), e, f)
  {
  }

  lemma CallElsewhere(c: Config, s: State, n: State, e: Event, f: string)
    requires Framed(s, n, e) && PhaseOf(e) != Posting && PhaseOf(e) != Correlating && RowsEndure(s, n, e)
    requires !s.pc.Idle? ==> s.pc.key in s.rows
    requires CreatingFor(c, n, f)
    ensures CallGoesOn(c, s, n, e, f)
  {
  }

  lemma CallStep(c: Config, s: State, e: Event, f: string)
    requires Exclusive(s) && Enabled(c, s, e) && CreatingFor(c, Next(c, s, e), f)
    ensures CallGoesOn(c, s, Next(c, s, e), e, f)
  {
    match PhaseOf(e)
    case Posting => CallPosting(c, s, e, f);
    case Correlating => CallCorrelating(c, s, e, f);
    case _ =>
      Frame(c, s, e);
      RowsStay(c, s, e);
      CallElsewhere(c, s, Next(c, s, e), e, f);
  }

  // ---- How many cases a fingerprint can cost.

  /** A create request for this fingerprint is acted on some time after it was sent. */
  predicate IsDelayed(e: Event, f: string) {
    e.CaseAppears? && e.fingerprint == f
  }

  ghost function Delayed(r: Run, f: string): nat {
    if r.From? then 0 else Delayed(r.past, f) + Count(IsDelayed(r.event, f))
  }

  /** How many requests of the call at hand are still to be acted on, if so many were before. */
  ghost function OwnAfter(c: Config, n: State, e: Event, f: string, own: nat): nat {
    if !CreatingFor(c, n, f) then 0
    else if e.SendCase? then own + Count(e.late)
    else if IsDelayed(e, f) && own > 0 then own - 1
    else own
  }

  /** The requests of the call at hand that were not acted on when they were sent, but still will be. */
  ghost function Own(c: Config, r: Run, f: string): nat {
    if r.From? then 0 else OwnAfter(c, Final(c, r), r.event, f, Own(c, r.past, f))
  }

  /**
   A request of an earlier call is acted on. A case that appears while requests of the call at hand
   are to be acted on is taken to be one of these.
   */
  ghost predicate IsLate(e: Event, f: string, own: nat) {
    IsDelayed(e, f) && own == 0
  }

  /** Create requests for this fingerprint that TheHive acted on after their call was over. */
  ghost function Late(c: Config, r: Run, f: string): nat {
    if r.From? then 0 else Late(c, r.past, f) + Count(IsLate(r.event, f, Own(c, r.past, f)))
  }

  /** A create request that TheHive acted on during its call and the client nevertheless repeats. */
  ghost predicate IsWasted(c: Config, s: State, e: Event, f: string) {
    && e.CaseReply? && CreatingFor(c, s, f) && s.pc.AwaitingCase? && s.pc.created.Some?
    && JudgePost(c, s.pc.posts, e.caseAnswer, e.caseBody).Again?
  }

  ghost function Wasted(c: Config, r: Run, f: string): nat {
    if r.From? then 0 else Wasted(c, r.past, f) + Count(IsWasted(c, Final(c, r.past), r.event, f))
  }

  ghost predicate Bounded(c: Config, s: State, f: string, own: nat, late: nat) {
    && |CasesOf(s, f)| <= c.clientAttempts + late
    && (if CreatingFor(c, s, f)
        then |CasesOf(s, f)| + own <= Sent(s.pc) + late && own <= Sent(s.pc) <= c.clientAttempts
        else own == 0)
  }

  lemma BoundedStep(c: Config, s: State, e: Event, f: string, own: nat, late: nat)
    requires Exclusive(s) && Bounded(c, s, f, own, late) && Enabled(c, s, e)
    ensures Bounded(c, Next(c, s, e), f, OwnAfter(c, Next(c, s, e), e, f, own), late + Count(IsLate(e, f, own)))
  {
    CasesStep(c, s, e, f);
    if CreatingFor(c, Next(c, s, e), f) {
      CallStep(c, s, e, f);
    }
    if e.SendCase? && CreatingFor(c, s, f) {
      SendingGoesOn(c, s, e, f);
    }
    BoundedOn(c, s, Next(c, s, e), e, f, own, late);
  }

  lemma BoundedOn(c: Config, s: State, n: State, e: Event, f: string, own: nat, late: nat)
    requires Bounded(c, s, f, own, late)
    requires |CasesOf(n, f)| == |CasesOf(s, f)| + Count(Born(c, s, e, f).Some?)
    requires CreatingFor(c, n, f) ==> CallGoesOn(c, s, n, e, f)
    requires e.SendCase? && CreatingFor(c, s, f) ==> CreatingFor(c, n, f) && (e.created.Some? ==> !e.late)
    ensures Bounded(c, n, f, OwnAfter(c, n, e, f, own), late + Count(IsLate(e, f, own)))
  {
  }

  lemma SendingGoesOn(c: Config, s: State, e: Event, f: string)
    requires Enabled(c, s, e) && e.SendCase?
    ensures CreatingFor(c, s, f) ==>
              && CreatingFor(c, Next(c, s, e), f) && Next(c, s, e).pc.AwaitingCase?
              && s.pc.Creating? && s.pc.posts < c.clientAttempts && (e.created.Some? ==> !e.late)
  {
    assert Next(c, s, e) == PostingNext(c, s, e);
  }

  /** In every history, at most as many cases as the client makes attempts, and the late ones. */
  lemma {:induction false} CasesBounded(c: Config, r: Run, f: string)
    requires Execution(c, r)
    ensures Bounded(c, Final(c, r), f, Own(c, r, f), Late(c, r, f))
  {
    if r.Then? {
      assert Start(r.past) == Start(r);
      CasesBounded(c, r.past, f);
      ExclusiveAlways(c, r.past);
      BoundedStep(c, Final(c, r.past), r.event, f, Own(c, r.past, f), Late(c, r.past, f));
    } else {
      assert CasesOf(Final(c, r), f) == {};
    }
  }

  /** No call for this fingerprint is under way that has not yet created a case. */
  ghost predicate MayHaveOne(c: Config, s: State, f: string) {
    CreatingFor(c, s, f) ==> s.pc.AwaitingCase? && s.pc.created.Some?
  }

  lemma WasteStep(c: Config, s: State, e: Event, f: string, w: nat)
    requires Exclusive(s) && Enabled(c, s, e)
    requires |CasesOf(s, f)| <= w + Count(MayHaveOne(c, s, f))
    ensures |CasesOf(Next(c, s, e), f)| <=
            w + Count(IsWasted(c, s, e, f)) + Count(IsDelayed(e, f)) + Count(MayHaveOne(c, Next(c, s, e), f))
  {
    CasesStep(c, s, e, f);
    if CreatingFor(c, Next(c, s, e), f) {
      CallStep(c, s, e, f);
    } else if e.SendCase? && CreatingFor(c, s, f) {
      SendingGoesOn(c, s, e, f);
    }
  }

  lemma {:induction false} CasesAndWaste(c: Config, r: Run, f: string)
    requires Execution(c, r)
    ensures |CasesOf(Final(c, r), f)| <= Wasted(c, r, f) + Delayed(r, f) + Count(MayHaveOne(c, Final(c, r), f))
  {
    if r.Then? {
      assert Start(r.past) == Start(r);
      CasesAndWaste(c, r.past, f);
      ExclusiveAlways(c, r.past);
      WasteStep(c, Final(c, r.past), r.event, f, Wasted(c, r.past, f) + Delayed(r.past, f));
    } else {
      assert CasesOf(Final(c, r), f) == {};
    }
  }

  /** More than one case takes a create request that was acted on and yet repeated, or acted on with delay. */
  lemma OneCaseUnlessWasted(c: Config, r: Run, f: string)
    requires Execution(c, r)
    ensures |CasesOf(Final(c, r), f)| <= 1 + Wasted(c, r, f) + Delayed(r, f)
  {
    CasesAndWaste(c, r, f);
  }

  // ---- What is still to come once a case exists.

  /** The cases there are, those under way, and those the call at hand may still create. */
  ghost function Room(c: Config, s: State, f: string): nat {
    |CasesOf(s, f)| + s.world.opening[f] + Max(0, if CreatingFor(c, s, f) then c.clientAttempts - Sent(s.pc) else 0)
  }

  /** A history from s. */
  ghost predicate FromHere(c: Config, s: State, r: Run) {
    Valid(c, r) && AdmissibleRun(c, r) && Start(r) == s
  }

  lemma RoomStep(c: Config, s: State, e: Event, f: string)
    requires Exclusive(s) && Enabled(c, s, e) && CasesOf(s, f) != {}
    ensures Room(c, Next(c, s, e), f) <= Room(c, s, f)
    ensures CasesOf(s, f) <= CasesOf(Next(c, s, e), f)
  {
    CasesStep(c, s, e, f);
    OpeningStep(c, s, e, f);
    if CreatingFor(c, Next(c, s, e), f) {
      CallStep(c, s, e, f);
    }
    if e.SendCase? && CreatingFor(c, s, f) {
      SendingGoesOn(c, s, e, f);
    }
    RoomOf(c, s, Next(c, s, e), e, f);
  }

  lemma RoomOf(c: Config, s: State, n: State, e: Event, f: string)
    requires |CasesOf(n, f)| == |CasesOf(s, f)| + Count(Born(c, s, e, f).Some?)
    requires n.world.opening[f] == s.world.opening[f] - Count(IsDelayed(e, f))
             + Count(e.SendCase? && CreatingFor(c, s, f) && e.late)
    requires CreatingFor(c, n, f) ==> CallGoesOn(c, s, n, e, f)
    requires e.SendCase? && CreatingFor(c, s, f) ==>
               CreatingFor(c, n, f) && s.pc.Creating? && s.pc.posts < c.clientAttempts && (e.created.Some? ==> !e.late)
    requires CasesOf(s, f) != {}
    ensures Room(c, n, f) <= Room(c, s, f)
  {
  }

  lemma OpeningStep(c: Config, s: State, e: Event, f: string)
    requires Enabled(c, s, e)
    ensures Next(c, s, e).world.opening[f] == s.world.opening[f] - Count(IsDelayed(e, f))
              + Count(e.SendCase? && CreatingFor(c, s, f) && e.late)
  {
    if !e.SendCase? && !e.CaseAppears? {
      OtherStepsCreateNothing(c, s, e);
    } else if e.SendCase? {
      assert Next(c, s, e) == PostingNext(c, s, e);
    }
  }

  lemma {:induction false} RoomBounds(c: Config, r: Run, f: string)
    requires Valid(c, r) && Exclusive(Start(r)) && CasesOf(Start(r), f) != {}
    ensures Exclusive(Final(c, r)) && CasesOf(Start(r), f) <= CasesOf(Final(c, r), f)
    ensures |CasesOf(Final(c, r), f)| <= Room(c, Final(c, r), f) <= Room(c, Start(r), f)
  {
    if r.Then? {
      RoomBounds(c, r.past, f);
      ExclusiveStep(c, Final(c, r.past), r.event);
      RoomStep(c, Final(c, r.past), r.event, f);
    }
  }

  ghost function Above(ids: set<nat>): (n: nat)
    ensures forall i | i in ids :: i < n
  {
    if ids == {} then 0
    else
      var x :| x in ids;
      assert forall i | i in ids :: i == x || i in ids - {x};
      Max(x + 1, Above(ids - {x}))
  }

  /** A step towards filling the room: the next create request acts, or a late one does. */
  ghost function Filling(c: Config, s: State, f: string): Event {
    if CreatingFor(c, s, f) && s.pc.Creating? then SendCase(Some(Above(s.world.cases.Keys)), false)
    else if CreatingFor(c, s, f) && Sent(s.pc) < c.clientAttempts then CaseReply(Http.Timeout, Unreadable)
    else CaseAppears(Above(s.world.cases.Keys), f)
  }

  lemma FillingEnabled(c: Config, s: State, f: string)
    requires Exclusive(s) && IncidentsAgree(c, s) && |CasesOf(s, f)| < Room(c, s, f)
    ensures Enabled(c, s, Filling(c, s, f)) && Admissible(s, Filling(c, s, f))
  {
  }

  lemma FillingPc(c: Config, s: State, f: string)
    requires |CasesOf(s, f)| < Room(c, s, f) && Enabled(c, s, Filling(c, s, f))
    ensures var e, n := Filling(c, s, f), Next(c, s, Filling(c, s, f));
      && Max(0, if CreatingFor(c, n, f) then c.clientAttempts - Sent(n.pc) else 0) + Count(e.SendCase?) ==
         Max(0, if CreatingFor(c, s, f) then c.clientAttempts - Sent(s.pc) else 0)
      && (e.CaseReply? ==> s.pc.AwaitingCase? && n.pc.Creating?)
  {
    var e := Filling(c, s, f);
    if !e.CaseAppears? {
      assert Next(c, s, e) == PostingNext(c, s, e);
    }
  }

  lemma FillingStep(c: Config, s: State, f: string)
    requires Exclusive(s) && IncidentsAgree(c, s) && |CasesOf(s, f)| < Room(c, s, f)
    ensures var e := Filling(c, s, f);
      && Enabled(c, s, e) && Admissible(s, e)
      && Room(c, Next(c, s, e), f) == Room(c, s, f)
      && |CasesOf(Next(c, s, e), f)| == |CasesOf(s, f)| + Count(!e.CaseReply?)
      && Next(c, s, e).world.opening[f] + Count(IsDelayed(e, f)) == s.world.opening[f]
      && (e.CaseReply? ==> s.pc.AwaitingCase? && Next(c, s, e).pc.Creating?)
  {
    FillingEnabled(c, s, f);
    FillingPc(c, s, f);
    CasesStep(c, s, Filling(c, s, f), f);
    OpeningStep(c, s, Filling(c, s, f), f);
  }

  /** The room can be filled: TheHive may act on every request, in its call or late. */
  lemma {:induction false} Fill(c: Config, r: Run, f: string) returns (q: Run)
    requires Valid(c, r) && AdmissibleRun(c, r) && Exclusive(Final(c, r)) && IncidentsAgree(c, Final(c, r))
    ensures Valid(c, q) && AdmissibleRun(c, q) && Start(q) == Start(r)
    ensures |CasesOf(Final(c, q), f)| == Room(c, Final(c, r), f)
    ensures Own(c, r, f) == 0 ==> Late(c, q, f) == Late(c, r, f) + Final(c, r).world.opening[f]
    decreases Room(c, Final(c, r), f) - |CasesOf(Final(c, r), f)|, Count(Final(c, r).pc.AwaitingCase?)
  {
    var s := Final(c, r);
    if |CasesOf(s, f)| == Room(c, s, f) {
      q := r;
    } else {
      FillingStep(c, s, f);
      IncidentsStep(c, s, Filling(c, s, f));
      q := Fill(c, Then(r, Filling(c, s, f)), f);
    }
  }

  /**
   Once a case exists, exactly as many can be reached as there are, plus the create requests that
   outlived their call and those the call at hand has left.
   */
  lemma CasesCeiling(c: Config, s: State, f: string, most: nat)
    requires Exclusive(s) && IncidentsAgree(c, s) && CasesOf(s, f) != {}
    ensures (forall r | FromHere(c, s, r) :: |CasesOf(Final(c, r), f)| <= most) <==> Room(c, s, f) <= most
  {
    forall r | FromHere(c, s, r) ensures |CasesOf(Final(c, r), f)| <= Room(c, s, f) {
      RoomBounds(c, r, f);
    }
    var q := Fill(c, From(s), f);
    assert FromHere(c, s, q);
  }

  /**
   An existing case is found by its tag ever after, with no other created for its fingerprint, if
   and only if no create request has outlived its call and none can still be sent by a call at hand.
   */
  lemma RediscoveryExactly(c: Config, s: State, f: string)
    requires Exclusive(s) && IncidentsAgree(c, s) && CasesOf(s, f) != {}
    ensures (forall r | FromHere(c, s, r) :: CasesOf(Final(c, r), f) == CasesOf(s, f)) <==>
            s.world.opening[f] == 0 && (CreatingFor(c, s, f) ==> Sent(s.pc) == c.clientAttempts)
  {
    if Room(c, s, f) <= |CasesOf(s, f)| {
      forall r | FromHere(c, s, r) ensures CasesOf(Final(c, r), f) == CasesOf(s, f) {
        RoomBounds(c, r, f);
        SameSize(CasesOf(s, f), CasesOf(Final(c, r), f));
      }
    } else {
      var q := Fill(c, From(s), f);
      assert FromHere(c, s, q) && CasesOf(Final(c, q), f) != CasesOf(s, f);
    }
  }

  lemma SameSize(a: set<CaseId>, b: set<CaseId>)
    requires a <= b && |b| <= |a|
    ensures a == b
  {
    assert b == a + (b - a);
    assert |b| == |a| + |b - a|;
  }

  // ---- Deliveries that end without a case.

  /** The incident of this fingerprint is reserved and has no case. */
  ghost predicate Unresolved(s: State, f: string) {
    f in s.incidents && s.incidents[f].None?
  }

  ghost predicate InWindowOf(c: Config, s: State, f: string) {
    InWindow(s.pc) && s.pc.key in s.rows && Fp(c, Held(s)) == f
  }

  /** A crash fell between reserving this fingerprint and recording or releasing it. */
  ghost predicate CrashedInside(c: Config, r: Run, f: string) {
    r.Then? && (CrashedInside(c, r.past, f) || (r.event.Crash? && InWindowOf(c, Final(c, r.past), f)))
  }

  /** The delivery being worked on has this fingerprint and no case. */
  ghost predicate PcWithoutCase(c: Config, s: State, f: string) {
    HasIncident(s.pc) && s.pc.key in s.rows && Fp(c, Held(s)) == f && s.pc.incident.None?
  }

  /** This delivery ended without a case. */
  ghost predicate RowWithoutCase(s: State, k: string) {
    k in s.rows && s.rows[k].result.Some? && s.rows[k].result.value.incident.None?
  }

  /** Working on a delivery touches the incident of its own fingerprint only, and only inside the window. */
  ghost predicate IncidentStays(c: Config, s: State, n: State, f: string)
    requires !s.pc.Idle? && s.pc.key in s.rows
  {
    && (f in n.incidents <==> f in s.incidents) && (f in s.incidents ==> n.incidents[f] == s.incidents[f])
    && (f == Fp(c, Held(s)) ==> !InWindow(n.pc))
  }

  lemma OtherIncidentsCorrelating(c: Config, s: State, e: Event, f: string)
    requires PhaseOf(e) == Correlating && !s.pc.Idle? && s.pc.key in s.rows && CorrelatingEnabled(c, s, e)
    requires f != Fp(c, Held(s)) || (f in s.incidents && !InWindow(s.pc))
    ensures IncidentStays(c, s, CorrelatingNext(c, s, e), f)
  {
  }

  lemma OtherIncidentsPosting(c: Config, s: State, e: Event, f: string)
    requires PhaseOf(e) == Posting && !s.pc.Idle? && s.pc.key in s.rows && PostingEnabled(c, s, e)
    requires f != Fp(c, Held(s)) || (f in s.incidents && !InWindow(s.pc))
    ensures IncidentStays(c, s, PostingNext(c, s, e), f)
  {
  }

  lemma OtherIncidentsStay(c: Config, s: State, e: Event, f: string)
    requires Enabled(c, s, e) && (PhaseOf(e) == Correlating || PhaseOf(e) == Posting)
    requires f != Fp(c, Held(s)) || (f in s.incidents && !InWindow(s.pc))
    ensures IncidentStays(c, s, Next(c, s, e), f)
  {
    if PhaseOf(e) == Correlating {
      OtherIncidentsCorrelating(c, s, e, f);
    } else {
      OtherIncidentsPosting(c, s, e, f);
    }
  }

  /** A step of the pipeline. */
  predicate InPipeline(e: Event) {
    PhaseOf(e) == Correlating || PhaseOf(e) == Posting
  }

  lemma UnresolvedStep(c: Config, s: State, e: Event, f: string)
    requires Exclusive(s) && Enabled(c, s, e)
    requires Unresolved(s, f) && !InWindowOf(c, s, f)
    ensures Unresolved(Next(c, s, e), f) && !InWindowOf(c, Next(c, s, e), f)
  {
    Frame(c, s, e);
    RowsStay(c, s, e);
    if InPipeline(e) {
      OtherIncidentsStay(c, s, e, f);
    }
    UnresolvedKept(c, s, Next(c, s, e), e, f);
  }

  lemma UnresolvedKept(c: Config, s: State, n: State, e: Event, f: string)
    requires Exclusive(s) && Framed(s, n, e) && RowsEndure(s, n, e)
    requires InPipeline(e) ==> IncidentStays(c, s, n, f)
    requires Unresolved(s, f) && !InWindowOf(c, s, f)
    ensures Unresolved(n, f) && !InWindowOf(c, n, f)
  {
    if InWindow(n.pc) && !InPipeline(e) {
      WindowFramed(s, n, e);
    }
  }

  lemma WindowFramed(s: State, n: State, e: Event)
    requires Framed(s, n, e) && !InPipeline(e) && InWindow(n.pc)
    ensures n.pc == s.pc
  {
  }

  /** An incident that leaves the window resolved or released does so by its worker. */
  lemma WindowClosesCorrelating(c: Config, s: State, e: Event, f: string)
    requires PhaseOf(e) == Correlating && !s.pc.Idle? && s.pc.key in s.rows && CorrelatingEnabled(c, s, e)
    requires f == Fp(c, Held(s)) && (Unresolved(s, f) ==> InWindow(s.pc))
    ensures Unresolved(CorrelatingNext(c, s, e), f) ==> InWindow(CorrelatingNext(c, s, e).pc)
  {
  }

  lemma WindowClosesPosting(c: Config, s: State, e: Event, f: string)
    requires PhaseOf(e) == Posting && !s.pc.Idle? && s.pc.key in s.rows && PostingEnabled(c, s, e)
    requires f == Fp(c, Held(s)) && (Unresolved(s, f) ==> InWindow(s.pc))
    ensures Unresolved(PostingNext(c, s, e), f) ==> InWindow(PostingNext(c, s, e).pc)
  {
  }

  /** An incident becomes unresolved for good only through a crash. */
  lemma ResolvedStep(c: Config, s: State, e: Event, f: string)
    requires Exclusive(s) && Enabled(c, s, e)
    requires Unresolved(s, f) ==> InWindowOf(c, s, f)
    requires !(e.Crash? && InWindowOf(c, s, f))
    ensures Unresolved(Next(c, s, e), f) ==> InWindowOf(c, Next(c, s, e), f)
  {
    Frame(c, s, e);
    RowsStay(c, s, e);
    if InPipeline(e) {
      WindowStep(c, s, e, f);
    } else if PhaseOf(e) == Queueing {
      PcQueueing(s, e);
    }
    ResolvedKept(c, s, Next(c, s, e), e, f);
  }

  lemma PcQueueing(s: State, e: Event)
    requires PhaseOf(e) == Queueing && QueueingEnabled(s, e)
    ensures QueueingNext(s, e).pc == s.pc || e.Crash? || s.pc.Idle?
  {
  }

  lemma ResolvedKept(c: Config, s: State, n: State, e: Event, f: string)
    requires Exclusive(s) && Framed(s, n, e) && RowsEndure(s, n, e)
    requires InPipeline(e) ==> (Unresolved(n, f) ==> f == Fp(c, Held(s)) && InWindow(n.pc))
    requires PhaseOf(e) == Queueing ==> n.pc == s.pc || e.Crash? || s.pc.Idle?
    requires Unresolved(s, f) ==> InWindowOf(c, s, f)
    requires !(e.Crash? && InWindowOf(c, s, f))
    ensures Unresolved(n, f) ==> InWindowOf(c, n, f)
  {
  }

  lemma WindowStep(c: Config, s: State, e: Event, f: string)
    requires Enabled(c, s, e) && InPipeline(e)
    requires Unresolved(s, f) ==> InWindowOf(c, s, f)
    ensures Unresolved(Next(c, s, e), f) ==> f == Fp(c, Held(s)) && InWindow(Next(c, s, e).pc)
  {
    if f != Fp(c, Held(s)) {
      OtherIncidentsStay(c, s, e, f);
    } else if PhaseOf(e) == Correlating {
      WindowClosesCorrelating(c, s, e, f);
    } else {
      WindowClosesPosting(c, s, e, f);
    }
  }

  lemma {:induction false} IncidentsAlways(c: Config, r: Run)
    requires Execution(c, r)
    ensures Exclusive(Final(c, r)) && IncidentsAgree(c, Final(c, r))
  {
    if r.Then? {
      assert Start(r.past) == Start(r);
      IncidentsAlways(c, r.past);
      IncidentsStep(c, Final(c, r.past), r.event);
    }
  }

  /**
   Outside the window of its fingerprint, an incident lacks its case exactly when a crash once
   fell inside that window; such an incident stays unresolved for ever.
   */
  lemma {:induction false} UnresolvedExactlyAfterCrash(c: Config, r: Run, f: string)
    requires Execution(c, r)
    ensures CrashedInside(c, r, f) <==> Unresolved(Final(c, r), f) && !InWindowOf(c, Final(c, r), f)
  {
    if r.Then? {
      var s := Final(c, r.past);
      assert Start(r.past) == Start(r);
      UnresolvedExactlyAfterCrash(c, r.past, f);
      IncidentsAlways(c, r.past);
      if CrashedInside(c, r.past, f) {
        UnresolvedStep(c, s, r.event, f);
      } else if r.event.Crash? && InWindowOf(c, s, f) {
      } else {
        ResolvedStep(c, s, r.event, f);
      }
    }
  }

  /** This delivery is completed with this case. */
  ghost predicate HasCase(s: State, k: string, id: CaseId) {
    && k in s.rows && s.rows[k].status == Completed
    && s.rows[k].result.Some? && s.rows[k].result.value.incident == Some(id)
  }

  lemma SameCase(c: Config, r: Run, j: string, k: string, a: CaseId, b: CaseId)
    requires Execution(c, r) && HasCase(Final(c, r), j, a) && HasCase(Final(c, r), k, b)
    ensures a == b <==> Fp(c, Final(c, r).rows[j]) == Fp(c, Final(c, r).rows[k])
  {
    var s := Final(c, r);
    IncidentsAlways(c, r);
    assert KnownCase(c, s, s.rows[j], Some(a), s.rows[j].result.value.disposition);
    assert KnownCase(c, s, s.rows[k], Some(b), s.rows[k].result.value.disposition);
  }

  /**
   Completed deliveries share a case exactly if their alerts have the same hour, rule and agent and offer
   the same well-formed indicators, as long as no vertical bar is in any of these.
   */
  lemma CaseSharedExactly(c: Config, r: Run, j: string, k: string, a: CaseId, b: CaseId)
    requires Execution(c, r) && HasCase(Final(c, r), j, a) && HasCase(Final(c, r), k, b)
    requires Plain(Final(c, r).rows[j].alert) && PlainIndicators(c.valid, Final(c, r).rows[j].alert)
    requires Plain(Final(c, r).rows[k].alert) && PlainIndicators(c.valid, Final(c, r).rows[k].alert)
    ensures var x, y := Final(c, r).rows[j].alert, Final(c, r).rows[k].alert;
      a == b <==>
        && x.hour == y.hour && x.ruleId == y.ruleId && x.agentId == y.agentId
        && forall i | i in c.valid :: Offers(x.data, i) <==> Offers(y.data, i)
  {
    SameCase(c, r, j, k, a, b);
    FingerprintExactly(c.valid, Final(c, r).rows[j].alert, Final(c, r).rows[k].alert);
  }

  /** Whatever the indicators are, a case is never shared across hours, rules or agents. */
  lemma CaseOfOneRule(c: Config, r: Run, j: string, k: string, id: CaseId)
    requires Execution(c, r) && HasCase(Final(c, r), j, id) && HasCase(Final(c, r), k, id)
    requires Plain(Final(c, r).rows[j].alert) && Plain(Final(c, r).rows[k].alert)
    ensures var x, y := Final(c, r).rows[j].alert, Final(c, r).rows[k].alert;
      x.hour == y.hour && x.ruleId == y.ruleId && x.agentId == y.agentId
  {
    SameCase(c, r, j, k, id, id);
    FingerprintTells(c.valid, Final(c, r).rows[j].alert, Final(c, r).rows[k].alert);
  }

  lemma PcWithoutCaseStep(c: Config, s: State, e: Event, f: string)
    requires Exclusive(s) && Enabled(c, s, e) && PcWithoutCase(c, Next(c, s, e), f)
    ensures PcWithoutCase(c, s, f) || (e.ReserveIncident? && Unresolved(s, f) && !InWindowOf(c, s, f))
  {
    if PhaseOf(e) == Correlating {
      PcWithoutCaseCorrelating(c, s, e, f);
    } else {
      if PhaseOf(e) == Closing {
        PcClosing(c, s, e);
      }
      Frame(c, s, e);
      RowsStay(c, s, e);
      PcWithoutCaseElsewhere(c, s, Next(c, s, e), e, f);
    }
  }

  lemma PcClosing(c: Config, s: State, e: Event)
    requires PhaseOf(e) == Closing && !s.pc.Idle? && s.pc.key in s.rows && ClosingEnabled(s, e)
    ensures var p := ClosingNext(c, s, e).pc; HasIncident(p) ==> HasIncident(s.pc) && p.incident == s.pc.incident
  {
  }

  lemma PcWithoutCaseElsewhere(c: Config, s: State, n: State, e: Event, f: string)
    requires Exclusive(s) && PhaseOf(e) != Correlating && Framed(s, n, e) && RowsEndure(s, n, e)
    requires PhaseOf(e) == Closing ==> (HasIncident(n.pc) ==> HasIncident(s.pc) && n.pc.incident == s.pc.incident)
    requires PcWithoutCase(c, n, f)
    ensures PcWithoutCase(c, s, f)
  {
  }

  lemma PcWithoutCaseCorrelating(c: Config, s: State, e: Event, f: string)
    requires PhaseOf(e) == Correlating && !s.pc.Idle? && s.pc.key in s.rows && CorrelatingEnabled(c, s, e)
    requires PcWithoutCase(c, CorrelatingNext(c, s, e), f)
    ensures PcWithoutCase(c, s, f) || (e.ReserveIncident? && Unresolved(s, f) && !InWindowOf(c, s, f))
  {
  }

  lemma RowWithoutCaseStep(c: Config, s: State, e: Event, k: string)
    requires Exclusive(s) && Enabled(c, s, e) && RowWithoutCase(Next(c, s, e), k)
    ensures k in s.rows && Fp(c, Next(c, s, e).rows[k]) == Fp(c, s.rows[k])
    ensures RowWithoutCase(s, k) || PcWithoutCase(c, s, Fp(c, s.rows[k]))
  {
    RowsStep(c, s, e);
    RowsStay(c, s, e);
    ResultOf(c, s, e, k);
  }

  lemma ResultOf(c: Config, s: State, e: Event, k: string)
    requires Enabled(c, s, e) && k in s.rows
    ensures var r := RowAfter(c, s, e, k).result;
      r == s.rows[k].result ||
      (e.Finish? && s.pc.Finishing? && s.pc.key == k && r.Some? && r.value.incident == s.pc.incident)
  {
  }

  lemma {:induction false} PcWithoutCaseOnlyAfterCrash(c: Config, r: Run, f: string)
    requires Execution(c, r) && PcWithoutCase(c, Final(c, r), f)
    ensures CrashedInside(c, r, f)
  {
    if r.Then? {
      assert Start(r.past) == Start(r);
      IncidentsAlways(c, r.past);
      PcWithoutCaseStep(c, Final(c, r.past), r.event, f);
      if PcWithoutCase(c, Final(c, r.past), f) {
        PcWithoutCaseOnlyAfterCrash(c, r.past, f);
      } else {
        UnresolvedExactlyAfterCrash(c, r.past, f);
      }
    }
  }

  lemma {:induction false} RowWithoutCaseOnlyAfterCrash(c: Config, r: Run, k: string)
    requires Execution(c, r) && RowWithoutCase(Final(c, r), k)
    ensures CrashedInside(c, r, Fp(c, Final(c, r).rows[k]))
  {
    if r.Then? {
      assert Start(r.past) == Start(r);
      IncidentsAlways(c, r.past);
      RowWithoutCaseStep(c, Final(c, r.past), r.event, k);
      if RowWithoutCase(Final(c, r.past), k) {
        RowWithoutCaseOnlyAfterCrash(c, r.past, k);
      } else {
        PcWithoutCaseOnlyAfterCrash(c, r.past, Fp(c, Final(c, r.past).rows[k]));
      }
    }
  }

  /** A completed delivery is pending exactly if a crash once fell inside the window of its fingerprint. */
  lemma PendingMeansCrash(c: Config, r: Run, k: string)
    requires Execution(c, r)
    requires k in Final(c, r).rows && Final(c, r).rows[k].status == Completed
    ensures Final(c, r).rows[k].result.Some?
    ensures var o := Final(c, r).rows[k].result.value;
      && (o.disposition == Pending <==> o.incident.None?)
      && (o.disposition == Pending <==> CrashedInside(c, r, Fp(c, Final(c, r).rows[k])))
  {
    IncidentsAlways(c, r);
    var f := Fp(c, Final(c, r).rows[k]);
    UnresolvedExactlyAfterCrash(c, r, f);
    if Final(c, r).rows[k].result.value.incident.None? {
      RowWithoutCaseOnlyAfterCrash(c, r, k);
    }
  }

  ghost predicate CrashFree(r: Run) {
    r.From? || (CrashFree(r.past) && !r.event.Crash?)
  }

  lemma {:induction false} NoCrashInside(c: Config, r: Run, f: string)
    requires CrashFree(r)
    ensures !CrashedInside(c, r, f)
  {
    if r.Then? {
      NoCrashInside(c, r.past, f);
    }
  }

  /** Without crashes every completed delivery has a case. */
  lemma CrashFreeHasCase(c: Config, r: Run, k: string)
    requires Execution(c, r) && CrashFree(r)
    requires k in Final(c, r).rows && Final(c, r).rows[k].status == Completed
    ensures Final(c, r).rows[k].result.Some? && Final(c, r).rows[k].result.value.incident.Some?
  {
    PendingMeansCrash(c, r, k);
    NoCrashInside(c, r, Fp(c, Final(c, r).rows[k]));
  }
}
