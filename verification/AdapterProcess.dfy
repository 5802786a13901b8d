/**
 One run of the adapter (docker/wazuh/integrations/soc_gateway_adapter.py): flush the spool, send
 the alert at hand, spool it if the gateway does not answer. Its methods take steps of the system
 of processes, and nothing else.
 */
module AdapterProcesses {
  import opened Basics
  import opened Sorting
  import opened Alerts
  import opened Deliveries
  import opened Protocol
  import opened Adapters
  import Text

  /** A step of this process, or the arrival of a request. */
  predicate Mine(e: Step, pid: nat) {
    e.Arrive? || (!e.Inside? && e.pid == pid)
  }

  ghost predicate Closed(c: Config, most: nat, pid: nat, within: iset<System>) {
    forall s, e | s in within && Mine(e, pid) && Possible(c, most, s, e) :: After(c, most, s, e) in within
  }

  /** Steps of this process lead from s to n: n is in every closed set that s is in. */
  ghost predicate Does(c: Config, most: nat, pid: nat, s: System, n: System) {
    forall within: iset<System> | Closed(c, most, pid, within) && s in within :: n in within
  }

  lemma DoStep(c: Config, most: nat, pid: nat, s: System, m: System, e: Step)
    requires Does(c, most, pid, s, m) && Mine(e, pid) && Possible(c, most, m, e)
    ensures Does(c, most, pid, s, After(c, most, m, e))
  {
  }

  /** A lawful history goes on in a lawful history: such steps are part of the system's behaviour. */
  lemma DoesIsLawful(c: Config, most: nat, pid: nat, s: System, n: System, h: Trail) returns (later: Trail)
    requires Does(c, most, pid, s, n) && Lawful(c, most, h) && End(c, most, h) == s
    ensures Lawful(c, most, later) && End(c, most, later) == n
  {
    var within := iset m | Reached(c, most, m);
    assert Ends(c, most, h, s);
    forall m, e | m in within && Mine(e, pid) && Possible(c, most, m, e)
      ensures After(c, most, m, e) in within
    {
      var g :| Ends(c, most, g, m);
      Continue(c, most, g, e, iset{});
      assert Ends(c, most, On(g, e), After(c, most, m, e));
    }
    assert Closed(c, most, pid, within);
    later :| Ends(c, most, later, n);
  }

  ghost predicate Ends(c: Config, most: nat, h: Trail, s: System) {
    Lawful(c, most, h) && End(c, most, h) == s
  }

  ghost predicate Reached(c: Config, most: nat, s: System) {
    exists h :: Ends(c, most, h, s)
  }

  // ---- Single steps, by the state they lead to.

  /** One request of this process: sent, perhaps handled by the gateway, and answered. */
  ghost function Exchanged(c: Config, s: System, q: Request, arrived: bool, answer: Answer): System {
    var t := s.(sent := if answer.Rejected? then s.sent else s.sent + multiset{q});
    if arrived then
      t.(gateway := Next(c, s.gateway, Intake(q.key, q.alert)),
         created := if EnqueueAnswerFor(s.gateway.rows, q.key, q.alert) == New then s.created + multiset{q.key}
                    else s.created)
    else t
  }

  lemma LaunchStep(c: Config, most: nat, pid: nat, s: System, raw: Raw, todo: seq<string>)
    requires pid !in s.procs && Normalized(raw).Some? && Listing(todo, s.spool.Keys, most)
    ensures var own := RequestFor(Normalized(raw).value);
      Does(c, most, pid, s, s.(procs := s.procs[pid := Flushing(todo, own)], launched := s.launched + {own}))
  {
    DoStep(c, most, pid, s, s, Launch(pid, raw, todo));
  }

  /** A process sends a request, which may arrive: it then waits for the answer. */
  lemma SendStep(c: Config, most: nat, pid: nat, s: System, m: System, e: Step, q: Request, arrived: bool)
    returns (there: System)
    requires Does(c, most, pid, s, m) && Mine(e, pid) && Possible(c, most, m, e)
    requires After(c, most, m, e) == m.(sent := m.sent + multiset{q}, procs := After(c, most, m, e).procs)
    ensures Does(c, most, pid, s, there)
    ensures there == Exchanged(c, m, q, arrived, NoAnswer).(procs := After(c, most, m, e).procs)
  {
    DoStep(c, most, pid, s, m, e);
    there := After(c, most, m, e);
    if arrived {
      DoStep(c, most, pid, s, there, Arrive(q));
      there := After(c, most, there, Arrive(q));
    }
  }

  lemma AnswerStep(c: Config, most: nat, pid: nat, s: System, there: System, answer: Answer)
    requires Does(c, most, pid, s, there) && pid in there.procs && Awaiting(there.procs[pid])
    requires answer.Accepted? ==> Holds(there, Asked(there.procs[pid]))
    ensures Does(c, most, pid, s, AfterAnswer(there, pid, answer))
  {
    DoStep(c, most, pid, s, there, Answered(pid, answer));
  }

  lemma Unsent(c: Config, m: System, q: Request, arrived: bool, answer: Answer)
    ensures Remaining(Exchanged(c, m, q, arrived, NoAnswer).sent, q, answer) == Exchanged(c, m, q, arrived, answer).sent
  {
    assert m.sent + multiset{q} - multiset{q} == m.sent;
  }

  lemma UnlinkStep(c: Config, most: nat, pid: nat, s: System, m: System)
    requires Does(c, most, pid, s, m) && pid in m.procs && m.procs[pid].Removing? && m.procs[pid].file.key in m.spool
    ensures var p := m.procs[pid];
      Does(c, most, pid, s, m.(spool := m.spool - {p.file.key}, procs := m.procs[pid := Flushing(p.todo, p.own)]))
  {
    DoStep(c, most, pid, s, m, Unlink(pid));
  }

  lemma AnswerFile(c: Config, most: nat, pid: nat, s: System, there: System, answer: Answer)
    requires Does(c, most, pid, s, there) && pid in there.procs && there.procs[pid].AwaitingFile?
    requires there.procs[pid].file.key in there.spool && (answer.Accepted? ==> Holds(there, there.procs[pid].file))
    ensures var p := there.procs[pid];
      Does(c, most, pid, s, there.(
        sent := Remaining(there.sent, p.file, answer), procs := there.procs[pid := Flushing(p.todo, p.own)],
        spool := if answer.Accepted? then there.spool - {p.file.key} else there.spool))
  {
    var answered, done := AfterAnswer(there, pid, answer), Flushing(there.procs[pid].todo, there.procs[pid].own);
    AnswerStep(c, most, pid, s, there, answer);
    if answer.Accepted? {
      UnlinkStep(c, most, pid, s, answered);
      assert answered.procs[pid := done] == there.procs[pid := done];
    }
  }

  lemma FileStep(c: Config, most: nat, pid: nat, s: System, m: System, arrived: bool, answer: Answer)
    requires Does(c, most, pid, s, m) && pid in m.procs && m.procs[pid].Flushing? && m.procs[pid].todo != []
    requires m.procs[pid].todo[0] in m.spool
    ensures var p := m.procs[pid];
      var q := Request(p.todo[0], m.spool[p.todo[0]]);
      var n := Exchanged(c, m, q, arrived, answer).(procs := m.procs[pid := Flushing(p.todo[1..], p.own)]);
      (answer.Accepted? ==> Holds(n, q)) ==>
        Does(c, most, pid, s, if answer.Accepted? then n.(spool := m.spool - {q.key}) else n)
  {
    var p := m.procs[pid];
    var q, done := Request(p.todo[0], m.spool[p.todo[0]]), Flushing(p.todo[1..], p.own);
    var there := SendStep(c, most, pid, s, m, SendFile(pid), q, arrived);
    Unsent(c, m, q, arrived, answer);
    if answer.Accepted? ==> Holds(there, q) {
      AnswerFile(c, most, pid, s, there, answer);
      assert there.procs[pid := done] == m.procs[pid := done];
    }
  }

  /** What becomes of a process's own alert once the answer is there. */
  ghost function Dealt(n: System, q: Request, answer: Answer): System {
    match answer
    case Accepted => n.(handled := n.handled + {q})
    case Rejected => n
    case NoAnswer => n.(handled := n.handled + {q}, spool := n.spool[q.key := q.alert])
  }

  lemma AnswerOwn(c: Config, most: nat, pid: nat, s: System, there: System, answer: Answer)
    requires Does(c, most, pid, s, there) && pid in there.procs && there.procs[pid].AwaitingOwn?
    requires answer.Accepted? ==> Holds(there, there.procs[pid].own)
    ensures var q := there.procs[pid].own;
      Does(c, most, pid, s,
           Dealt(there.(sent := Remaining(there.sent, q, answer), procs := there.procs - {pid}), q, answer))
  {
    AnswerStep(c, most, pid, s, there, answer);
    if answer.NoAnswer? {
      var answered := AfterAnswer(there, pid, answer);
      DoStep(c, most, pid, s, answered, Write(pid));
      assert answered.procs - {pid} == there.procs - {pid};
    }
  }

  lemma OwnStep(c: Config, most: nat, pid: nat, s: System, m: System, arrived: bool, answer: Answer)
    requires Does(c, most, pid, s, m) && pid in m.procs && m.procs[pid].Flushing? && m.procs[pid].todo == []
    ensures var q := m.procs[pid].own;
      var n := Exchanged(c, m, q, arrived, answer).(procs := m.procs - {pid});
      (answer.Accepted? ==> Holds(n, q)) ==> Does(c, most, pid, s, Dealt(n, q, answer))
  {
    var q := m.procs[pid].own;
    var there := SendStep(c, most, pid, s, m, SendOwn(pid), q, arrived);
    Unsent(c, m, q, arrived, answer);
    assert there.procs - {pid} == m.procs - {pid};
    if answer.Accepted? ==> Holds(there, q) {
      AnswerOwn(c, most, pid, s, there, answer);
    }
  }

  /** A code in 400 to 499. */
  predicate PermanentRefusal(code: Option<nat>) {
    code.Some? && 400 <= code.value < 500
  }

  /** What the adapter sees in the code of an answer, if there is one. */
  function AnswerOf(code: Option<nat>): Answer {
    if code == Some(202) then Answer.Accepted else if PermanentRefusal(code) then Rejected else NoAnswer
  }

  /** A request and the code of its answer, if one came. */
  datatype Try = Try(request: Request, code: Option<nat>)

  /**
   The i-th file of the list was sent as it was stored, and is still there unless the answer was a 202,
   or it was written again.
   */
  predicate FileTried(
    tries: seq<Try>, from: nat, i: nat, todo: seq<string>, before: map<string, Alert>, after: map<string, Alert>,
    written: Option<string>)
  {
    && i < |todo| && from + i < |tries| && todo[i] in before
    && tries[from + i].request == Request(todo[i], before[todo[i]])
    && (written != Some(todo[i]) ==> (todo[i] in after <==> tries[from + i].code != Some(202)))
  }

  /** So many files of the list were sent, in their order. */
  ghost predicate FilesTried(
    said: seq<Try>, tries: seq<Try>, n: nat, todo: seq<string>, before: map<string, Alert>,
    after: map<string, Alert>, written: Option<string>)
  {
    && |tries| >= |said| + n && said <= tries
    && forall i | 0 <= i < n :: FileTried(tries, |said|, i, todo, before, after, written)
  }

  /** One more file. */
  lemma FilesTriedOn(
    said: seq<Try>, tries: seq<Try>, n: nat, todo: seq<string>, before: map<string, Alert>,
    after: map<string, Alert>, more: seq<Try>, left: map<string, Alert>)
    requires FilesTried(said, tries, n, todo, before, after, None) && |tries| == |said| + n
    requires n < |todo| && Ascending(todo, Text.Less) && todo[n] in after && todo[n] in before
    requires after[todo[n]] == before[todo[n]]
    requires tries <= more && |more| == |tries| + 1 && more[|tries|].request == Request(todo[n], after[todo[n]])
    requires left == if more[|tries|].code == Some(202) then after - {todo[n]} else after
    ensures FilesTried(said, more, n + 1, todo, before, left, None)
  {
    forall i | 0 <= i < n + 1 ensures FileTried(more, |said|, i, todo, before, left, None) {
      if i < n {
        assert FileTried(tries, |said|, i, todo, before, after, None);
        Text.LessTotal(todo[i], todo[n]);
      }
    }
  }

  /** The way to the gateway, on which requests and answers may be lost. */
  class Link {
    const c: Config
    var gateway: State
    var sent: multiset<Request>
    var created: multiset<string>
    /** What was sent, in order. */
    ghost var tries: seq<Try>

    constructor (c: Config, gateway: State)
      ensures this.c == c && this.gateway == gateway && sent == multiset{} && created == multiset{} && tries == []
    {
      this.c, this.gateway, sent, created, tries := c, gateway, multiset{}, multiset{}, [];
    }

    /** The code of the gateway's answer, if one comes; a 202 only for what is in the queue. */
    method Send(q: Request) returns (ghost arrived: bool, code: Option<nat>)
      modifies this
      ensures tries == old(tries) + [Try(q, code)]
      ensures sent == if code.Some? && 400 <= code.value < 500 then old(sent) else old(sent) + multiset{q}
      ensures gateway == if arrived then Next(c, old(gateway), Intake(q.key, q.alert)) else old(gateway)
      ensures created == if arrived && q.key !in old(gateway).rows then old(created) + multiset{q.key} else old(created)
      ensures code == Some(202) ==> q.key in gateway.rows && gateway.rows[q.key].alert == q.alert
    {
      var reaches: bool := *;
      arrived := reaches;
      code := *;
      if reaches {
        if q.key !in gateway.rows {
          created := created + multiset{q.key};
        }
        gateway := Next(c, gateway, Intake(q.key, q.alert));
      }
      if code == Some(202) && !(q.key in gateway.rows && gateway.rows[q.key].alert == q.alert) {
        code := None;
      }
      if !PermanentRefusal(code) {
        sent := sent + multiset{q};
      }
      tries := tries + [Try(q, code)];
    }
  }

  /** Rows are added to the queue, and those that are there stay as they are. */
  ghost predicate QueueGrows(s: State, n: State) {
    forall k | k in s.rows :: k in n.rows && n.rows[k] == s.rows[k]
  }

  /** What is left of the spool is unchanged, and what is gone is in the queue. */
  ghost predicate Flushed(before: map<string, Alert>, after: map<string, Alert>, todo: seq<string>, n: State) {
    && after.Keys <= before.Keys
    && (forall f | f in after :: after[f] == before[f])
    && (forall f | f in before && f !in after :: f in todo && f in n.rows && n.rows[f].alert == before[f])
  }

  lemma FlushedOn(before: map<string, Alert>, m: map<string, Alert>, n: map<string, Alert>, todo: seq<string>,
                  i: nat, start: State, s: State, t: State)
    requires i < |todo| && Ascending(todo, Text.Less) && forall j | i <= j < |todo| :: todo[j] in m
    requires Flushed(before, m, todo, s) && QueueGrows(start, s) && QueueGrows(s, t)
    requires n == m || (n == m - {todo[i]} && todo[i] in t.rows && t.rows[todo[i]].alert == m[todo[i]])
    ensures Flushed(before, n, todo, t) && QueueGrows(start, t)
    ensures forall j | i < j < |todo| :: todo[j] in n
    ensures |m - {todo[i]}| == |m| - 1
  {
    assert (m - {todo[i]}).Keys == m.Keys - {todo[i]};
    Text.LessTotal(todo[i], todo[i]);
  }

  datatype Result = Delivered | Spooled | Raised

  /** Delivered on a 202, raised on a code in 400 to 499, and spooled on any other, or without an answer. */
  predicate ResultOf(t: Try, own: Request, r: Result) {
    && t.request == own
    && (r == Delivered <==> t.code == Some(202))
    && (r == Raised <==> t.code.Some? && 400 <= t.code.value < 500)
    && (r == Spooled <==> t.code.None? || !(t.code.value == 202 || 400 <= t.code.value < 500))
  }

  /** The first files were sent in their order, and then the process's own alert, with this result. */
  ghost predicate AllTried(
    said: seq<Try>, tries: seq<Try>, todo: seq<string>, own: Request, before: map<string, Alert>,
    after: map<string, Alert>, r: Result)
  {
    && |tries| == |said| + |todo| + 1 && ResultOf(tries[|tries| - 1], own, r)
    && FilesTried(said, tries, |todo|, todo, before, after, if r.Spooled? then Some(own.key) else None)
  }

  /** The process's own alert comes last. */
  lemma OwnTriedLast(
    said: seq<Try>, tries: seq<Try>, todo: seq<string>, own: Request, before: map<string, Alert>,
    flushed: map<string, Alert>, more: seq<Try>, after: map<string, Alert>, r: Result)
    requires FilesTried(said, tries, |todo|, todo, before, flushed, None) && |tries| == |said| + |todo|
    requires tries <= more && |more| == |tries| + 1 && ResultOf(more[|tries|], own, r)
    requires after == if r == Spooled then flushed[own.key := own.alert] else flushed
    ensures AllTried(said, more, todo, own, before, after, r)
  {
    var written := if r.Spooled? then Some(own.key) else None;
    forall i | 0 <= i < |todo| ensures FileTried(more, |said|, i, todo, before, after, written) {
      assert FileTried(tries, |said|, i, todo, before, flushed, None);
    }
  }

  class WazuhAdapter {
    const most: nat
    const link: Link
    var spool: map<string, Alert>

    constructor (most: nat, link: Link)
      ensures this.most == most && this.link == link && spool == map[]
    {
      this.most, this.link, spool := most, link, map[];
    }

    /** The system, of which this process sees its spool and the way to the gateway. */
    ghost function View(rest: System, procs: map<nat, Proc>): System
      reads this, link
    {
      rest.(gateway := link.gateway, spool := spool, procs := procs, sent := link.sent, created := link.created)
    }

    /** The first files of the spool, by name. */
    method FirstFiles() returns (todo: seq<string>)
      ensures Listing(todo, spool.Keys, most)
    {
      var names: seq<string> := [];
      var left := spool.Keys;
      while left != {}
        invariant left <= spool.Keys && Distinct(names)
        invariant forall f :: f in names <==> f in spool.Keys && f !in left
        decreases left
      {
        var f :| f in left;
        names, left := names + [f], left - {f};
      }
      TextOrder();
      SortAscends(names, Text.Less);
      var sorted := Sort(names, Text.Less);
      forall f ensures f in sorted <==> f in spool.Keys {
        assert f in multiset(sorted) <==> f in multiset(names);
      }
      todo := if |sorted| <= most then sorted else sorted[..most];
    }

    /** Sends one file and removes it on a 202. */
    method FlushFile(ghost rest: System, ghost pid: nat, ghost own: Request, ghost todo: seq<string>, file: string)
      returns (removed: bool)
      requires todo != [] && todo[0] == file && file in spool
      modifies this, link
      ensures Does(link.c, most, pid, old(View(rest, rest.procs[pid := Flushing(todo, own)])),
                   View(rest, rest.procs[pid := Flushing(todo[1..], own)]))
      ensures |link.tries| == |old(link.tries)| + 1 && old(link.tries) <= link.tries
      ensures var last := link.tries[|old(link.tries)|];
        last.request == Request(file, old(spool)[file]) && (removed <==> last.code == Some(202))
      ensures spool == if removed then old(spool) - {file} else old(spool)
      ensures removed ==> file in link.gateway.rows && link.gateway.rows[file].alert == old(spool)[file]
      ensures QueueGrows(old(link.gateway), link.gateway)
    {
      ghost var m := View(rest, rest.procs[pid := Flushing(todo, own)]);
      var arrived, seen := link.Send(Request(file, spool[file]));
      FileStep(link.c, most, pid, m, m, arrived, AnswerOf(seen));
      assert m.procs[pid := Flushing(todo[1..], own)] == rest.procs[pid := Flushing(todo[1..], own)];
      removed := seen == Some(202);
      if removed {
        spool := spool - {file};
      }
    }

    /**
     Sends the first files in their order. A file is removed only once the gateway holds it; one
     whose key the gateway held with another alert is still there afterwards.
     */
    method Flush(ghost rest: System, ghost pid: nat, ghost own: Request, todo: seq<string>) returns (delivered: nat)
      requires Listing(todo, spool.Keys, most)
      modifies this, link
      ensures Does(link.c, most, pid, old(View(rest, rest.procs[pid := Flushing(todo, own)])),
                   View(rest, rest.procs[pid := Flushing([], own)]))
      ensures delivered == |old(spool)| - |spool| <= most
      ensures Flushed(old(spool), spool, todo, link.gateway) && QueueGrows(old(link.gateway), link.gateway)
      ensures forall f | f in old(spool) && f in old(link.gateway).rows ::
                old(link.gateway).rows[f].alert != old(spool)[f] ==> f in spool
      ensures |link.tries| == |old(link.tries)| + |todo|
      ensures FilesTried(old(link.tries), link.tries, |todo|, todo, old(spool), spool, None)
    {
      delivered := 0;
      ghost var s := View(rest, rest.procs[pid := Flushing(todo, own)]);
      assert todo[0..] == todo;
      for i := 0 to |todo|
        invariant Does(link.c, most, pid, s, View(rest, rest.procs[pid := Flushing(todo[i..], own)]))
        invariant delivered == |old(spool)| - |spool| <= i
        invariant Flushed(old(spool), spool, todo, link.gateway)
        invariant forall j | i <= j < |todo| :: todo[j] in spool
        invariant QueueGrows(old(link.gateway), link.gateway)
        invariant |link.tries| == |old(link.tries)| + i
        invariant FilesTried(old(link.tries), link.tries, i, todo, old(spool), spool, None)
      {
        var file := todo[i];
        assert todo[i..][1..] == todo[i + 1..];
        ghost var m, queue, tries := spool, link.gateway, link.tries;
        var removed := FlushFile(rest, pid, own, todo[i..], file);
        FilesTriedOn(old(link.tries), tries, i, todo, old(spool), m, link.tries, spool);
        FlushedOn(old(spool), m, spool, todo, i, old(link.gateway), queue, link.gateway);
        if removed {
          delivered := delivered + 1;
        }
      }
      assert todo[|todo|..] == [];
    }

    /** Sends the alert at hand: delivered on a 202, given up on a 4xx, and spooled otherwise. */
    method SendOwn(ghost rest: System, ghost pid: nat, own: Request) returns (r: Result)
      requires pid !in rest.procs
      modifies this, link
      ensures Does(link.c, most, pid, old(View(rest, rest.procs[pid := Flushing([], own)])),
                   View(rest, rest.procs).(handled := if r.Raised? then rest.handled else rest.handled + {own}))
      ensures |link.tries| == |old(link.tries)| + 1 && old(link.tries) <= link.tries
      ensures ResultOf(link.tries[|old(link.tries)|], own, r)
      ensures spool == if r == Spooled then old(spool)[own.key := own.alert] else old(spool)
      ensures r == Delivered ==> own.key in link.gateway.rows && link.gateway.rows[own.key].alert == own.alert
    {
      ghost var m := View(rest, rest.procs[pid := Flushing([], own)]);
      var arrived, seen := link.Send(own);
      var answer := AnswerOf(seen);
      OwnStep(link.c, most, pid, m, m, arrived, answer);
      assert m.procs - {pid} == rest.procs;
      ghost var n := View(rest, rest.procs);
      assert n == Exchanged(link.c, m, own, arrived, answer).(procs := m.procs - {pid});
      match answer
      case Accepted => r := Delivered;
      case Rejected => r := Raised;
      case NoAnswer =>
        spool := spool[own.key := own.alert];
        r := Spooled;
    }

    /** Handles one record: delivered, spooled, or raised and not taken over. */
    method Process(ghost rest: System, ghost pid: nat, raw: Raw) returns (r: Result)
      requires pid !in rest.procs
      modifies this, link
      ensures !(raw.alert.ruleId in {"100100", "100101", "100102"} && "soc_lab" in raw.groups) ==>
                r == Raised && View(rest, rest.procs) == old(View(rest, rest.procs)) && link.tries == old(link.tries)
      ensures raw.alert.ruleId in {"100100", "100101", "100102"} && "soc_lab" in raw.groups ==>
                var own := Request(KeyOf(raw.alert), raw.alert);
                && Does(link.c, most, pid, old(View(rest, rest.procs)),
                        View(rest, rest.procs).(
                          launched := rest.launched + {own},
                          handled := if r.Raised? then rest.handled else rest.handled + {own}))
                && (r.Delivered? ==> own.key in link.gateway.rows && link.gateway.rows[own.key].alert == own.alert)
                && (r.Spooled? ==> own.key in spool && spool[own.key] == own.alert)
                && (!r.Spooled? ==> spool.Keys <= old(spool).Keys && forall f | f in spool :: spool[f] == old(spool)[f])
                && exists todo | Listing(todo, old(spool).Keys, most) ::
                     AllTried(old(link.tries), link.tries, todo, own, old(spool), spool, r)
    {
      var normalized := Normalized(raw);
      if normalized.None? {
        return Raised;
      }
      var own := RequestFor(normalized.value);
      ghost var s := View(rest, rest.procs);
      var todo := FirstFiles();
      LaunchStep(link.c, most, pid, s, raw, todo);
      ghost var started := rest.(launched := rest.launched + {own});
      var delivered := Flush(started, pid, own, todo);
      ghost var tries, flushed := link.tries, spool;
      r := SendOwn(started, pid, own);
      OwnTriedLast(old(link.tries), tries, todo, own, old(spool), flushed, link.tries, spool, r);
    }
  }

  lemma TextOrder()
    ensures StrictOrder(Text.Less)
  {
    forall x: string ensures !Text.Less(x, x) { Text.LessTotal(x, x); }
    forall x, y ensures Text.Less(x, y) || x == y || Text.Less(y, x) { Text.LessTotal(x, y); }
    forall x, y, z | Text.Less(x, y) && Text.Less(y, z) ensures Text.Less(x, z) { Text.LessTransitive(x, y, z); }
  }
}
