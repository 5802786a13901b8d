/**
 What becomes of spooled files and refused alerts over whole histories of the adapter: files that
 stay, files that are never tried, alerts that are given up.
 */
module Spools {
  import opened Basics
  import opened Sorting
  import opened Alerts
  import opened Protocol
  import opened Invariants
  import opened Adapters
  import Text

  // ---- Histories that go on.

  /** This step stores an alert under one of these keys. */
  predicate Writes(s: System, e: Step, keys: set<string>) {
    e.Write? && e.pid in s.procs && s.procs[e.pid].own.key in keys
  }

  /** A lawful history from h on, in which no process writes under these keys. */
  ghost predicate GoesOn(c: Config, most: nat, h: Trail, later: Trail, keys: set<string>) {
    later == h || (
      && later.On? && GoesOn(c, most, h, later.before, keys)
      && Possible(c, most, End(c, most, later.before), later.step)
      && !Writes(End(c, most, later.before), later.step, keys))
  }

  /** The gateway holds the key of this file with another alert. */
  predicate Conflicts(s: System, file: string) {
    file in s.spool && file in s.gateway.rows && s.gateway.rows[file].alert != s.spool[file]
  }

  /** What this process sent for the file, before it came to conflict, was or can be accepted. */
  predicate AboutToRemove(s: System, p: Proc, file: string) {
    (p.Removing? || (p.AwaitingFile? && Holds(s, p.file))) && p.file.key == file
  }

  /** A conflicting file that no process is about to remove. */
  ghost predicate Stuck(s: System, file: string) {
    Conflicts(s, file) && forall pid | pid in s.procs :: !AboutToRemove(s, s.procs[pid], file)
  }

  lemma StuckAnswer(s: System, pid: nat, answer: Answer, file: string)
    requires pid in s.procs && Awaiting(s.procs[pid]) && (answer.Accepted? ==> Holds(s, Asked(s.procs[pid])))
    requires Stuck(s, file)
    ensures Stuck(AfterAnswer(s, pid, answer), file) && AfterAnswer(s, pid, answer).spool == s.spool
  {
  }

  lemma StuckStep(c: Config, most: nat, s: System, e: Step, file: string)
    requires Exclusive(s.gateway) && Possible(c, most, s, e) && Stuck(s, file) && !Writes(s, e, {file})
    ensures Stuck(After(c, most, s, e), file) && After(c, most, s, e).spool[file] == s.spool[file]
  {
    if e.Answered? {
      StuckAnswer(s, e.pid, e.answer, file);
    } else if e.Inside? {
      GatewayStep(c, s.gateway, e.event);
    } else if e.Arrive? {
      GatewayStep(c, s.gateway, Intake(e.request.key, e.request.alert));
    }
  }

  lemma {:induction false} StuckStays(c: Config, most: nat, h: Trail, later: Trail, file: string)
    requires Lawful(c, most, h) && Stuck(End(c, most, h), file) && GoesOn(c, most, h, later, {file})
    ensures Lawful(c, most, later) && Stuck(End(c, most, later), file)
    ensures End(c, most, later).spool[file] == End(c, most, h).spool[file]
  {
    if later != h {
      StuckStays(c, most, h, later.before, file);
      SaneAlways(c, most, later.before);
      StuckStep(c, most, End(c, most, later.before), later.step, file);
    }
  }

  /** The process removes the file: its request is accepted if it is not yet, then it unlinks. */
  lemma Remove(c: Config, most: nat, h: Trail, pid: nat, file: string) returns (later: Trail)
    requires Lawful(c, most, h) && pid in End(c, most, h).procs && file in End(c, most, h).spool
    requires AboutToRemove(End(c, most, h), End(c, most, h).procs[pid], file)
    ensures GoesOn(c, most, h, later, {file}) && file !in End(c, most, later).spool
  {
    later := h;
    assert GoesOn(c, most, h, h, {file});
    if End(c, most, h).procs[pid].AwaitingFile? {
      Continue(c, most, h, Answered(pid, Answer.Accepted), iset{});
      later := On(h, Answered(pid, Answer.Accepted));
    }
    Continue(c, most, later, Unlink(pid), iset{});
    assert GoesOn(c, most, h, later, {file});
    later := On(later, Unlink(pid));
  }

  /**
   A conflicting file stays in the spool for as long as no process writes under its key, exactly
   if no process is about to remove what was stored there before.
   */
  lemma ConflictStaysExactly(c: Config, most: nat, h: Trail, file: string)
    requires Lawful(c, most, h) && Conflicts(End(c, most, h), file)
    ensures (forall later | GoesOn(c, most, h, later, {file}) :: file in End(c, most, later).spool)
            <==> Stuck(End(c, most, h), file)
  {
    var s := End(c, most, h);
    if Stuck(s, file) {
      forall later | GoesOn(c, most, h, later, {file}) ensures file in End(c, most, later).spool {
        StuckStays(c, most, h, later, file);
      }
    } else {
      var pid :| pid in s.procs && AboutToRemove(s, s.procs[pid], file);
      var later := Remove(c, most, h, pid, file);
    }
  }

  /** Such files occur: one of two alerts under a key reaches the gateway, the other one the spool. */
  lemma ConflictReached(c: Config, most: nat, a: Alert, b: Alert) returns (h: Trail)
    requires a != b && KeyOf(a) == KeyOf(b) && Forwarded(a) && Forwarded(b)
    ensures Lawful(c, most, h) && Stuck(End(c, most, h), KeyOf(b)) && RequestFor(b) in End(c, most, h).handled
  {
    var alerts, q := iset{a, b}, RequestFor(a);
    h := Fresh(0);
    var first, second := Launch(0, Raw({"soc_lab"}, a), []), Launch(1, Raw({"soc_lab"}, b), []);
    Continue(c, most, h, first, alerts);
    Continue(c, most, On(h, first), second, alerts);
    h := On(On(h, first), second);
    Continue(c, most, h, SendOwn(0), alerts);
    h := On(h, SendOwn(0));
    Continue(c, most, h, Arrive(q), alerts);
    h := On(h, Arrive(q));
    Continue(c, most, h, Answered(0, Answer.Accepted), alerts);
    h := On(h, Answered(0, Answer.Accepted));
    UnansweredSpools(c, most, h, 1, RequestFor(b), alerts);
    h := Unanswered(h, 1);
  }

  // ---- Starvation.

  /** No process has this file before it. */
  ghost predicate Untried(s: System, file: string) {
    forall pid | pid in s.procs :: Ignores(s.procs[pid], file)
  }

  predicate Ignores(p: Proc, file: string) {
    && (p.Flushing? || p.AwaitingFile? || p.Removing? ==> file !in p.todo)
    && (p.AwaitingFile? || p.Removing? ==> p.file.key != file)
  }

  /** As many stuck files as a process tries, or more, come before this one. */
  ghost predicate Starving(s: System, file: string, head: set<string>, most: nat) {
    && file in s.spool && Untried(s, file)
    && |head| >= most && forall g | g in head :: Stuck(s, g) && Text.Less(g, file)
  }

  lemma {:induction false} NoMoreThanItsLength(todo: seq<string>, names: set<string>)
    requires forall f | f in names :: f in todo
    ensures |names| <= |todo|
  {
    if todo == [] {
      assert names == {};
    } else {
      forall f | f in names - {todo[0]} ensures f in todo[1..] {
      }
      NoMoreThanItsLength(todo[1..], names - {todo[0]});
    }
  }

  /** The listing of a new process ends before the file. */
  lemma ListingEndsBefore(todo: seq<string>, s: System, file: string, head: set<string>, most: nat)
    requires Starving(s, file, head, most) && Listing(todo, s.spool.Keys, most)
    ensures file !in todo
  {
    if file in todo {
      forall g | g in head + {file} ensures g in todo {
        Text.LessTotal(file, g);
      }
      Text.LessTotal(file, file);
      NoMoreThanItsLength(todo, head + {file});
    }
  }

  lemma UntriedAnswer(s: System, pid: nat, answer: Answer, file: string)
    requires pid in s.procs && Awaiting(s.procs[pid]) && Untried(s, file)
    ensures Untried(AfterAnswer(s, pid, answer), file) && AfterAnswer(s, pid, answer).spool == s.spool
  {
  }

  lemma UntriedStep(c: Config, most: nat, s: System, e: Step, file: string)
    requires Possible(c, most, s, e) && file in s.spool && Untried(s, file) && (e.Launch? ==> file !in e.todo)
    ensures file in After(c, most, s, e).spool && Untried(After(c, most, s, e), file)
  {
    if e.Answered? {
      UntriedAnswer(s, e.pid, e.answer, file);
    }
  }

  lemma StarvingStep(c: Config, most: nat, s: System, e: Step, file: string, head: set<string>)
    requires Exclusive(s.gateway) && Possible(c, most, s, e) && Starving(s, file, head, most) && !Writes(s, e, head)
    ensures Starving(After(c, most, s, e), file, head, most)
  {
    forall g | g in head ensures Stuck(After(c, most, s, e), g) {
      StuckStep(c, most, s, e, g);
    }
    if e.Launch? {
      ListingEndsBefore(e.todo, s, file, head, most);
    }
    UntriedStep(c, most, s, e, file);
  }

  lemma {:induction false} StarvingStays(c: Config, most: nat, h: Trail, later: Trail, file: string, head: set<string>)
    requires Lawful(c, most, h) && Starving(End(c, most, h), file, head, most) && GoesOn(c, most, h, later, head)
    ensures Lawful(c, most, later) && Starving(End(c, most, later), file, head, most)
  {
    if later != h {
      StarvingStays(c, most, h, later.before, file, head);
      SaneAlways(c, most, later.before);
      StarvingStep(c, most, End(c, most, later.before), later.step, file, head);
    }
  }

  // ---- Listings.

  lemma {:induction false} LeastName(names: set<string>) returns (m: string)
    requires names != {}
    ensures m in names && forall f | f in names && f != m :: Text.Less(m, f)
    decreases names
  {
    var x :| x in names;
    var rest := names - {x};
    assert forall f | f in names && f != x :: f in rest;
    m := x;
    if rest != {} {
      var n := LeastName(rest);
      Text.LessTotal(x, n);
      if Text.Less(n, x) {
        m := n;
      } else {
        forall f | f in names && f != x ensures Text.Less(x, f) {
          if f != n {
            Text.LessTransitive(x, n, f);
          }
        }
      }
    }
  }

  /** A process can always list the spool. */
  lemma {:induction false} ListingExists(names: set<string>, most: nat) returns (todo: seq<string>)
    ensures Listing(todo, names, most)
    decreases most
  {
    if names == {} || most == 0 {
      todo := [];
    } else {
      var m := LeastName(names);
      var rest := ListingExists(names - {m}, most - 1);
      todo := [m] + rest;
      forall j | 0 <= j < |rest| ensures Text.Less(m, rest[j]) {
        assert rest[j] in rest;
      }
    }
  }

  lemma {:induction false} AscendingDistinct(todo: seq<string>)
    requires Ascending(todo, Text.Less)
    ensures |Elements(todo)| == |todo|
  {
    if todo != [] {
      AscendingDistinct(todo[1..]);
      if todo[0] in Elements(todo[1..]) {
        Text.LessTotal(todo[0], todo[0]);
      }
      assert Elements(todo) == Elements(todo[1..]) + {todo[0]};
    }
  }

  function Elements(todo: seq<string>): set<string> {
    set f | f in todo
  }

  /** The files of the spool that come before this one. */
  function Ahead(s: System, file: string): set<string> {
    set g | g in s.spool && Text.Less(g, file)
  }

  /** A file with few files before it is listed. */
  lemma Listed(todo: seq<string>, s: System, most: nat, file: string)
    requires Listing(todo, s.spool.Keys, most) && file in s.spool && |Ahead(s, file)| < most
    ensures file in todo
  {
    if file !in todo {
      AscendingDistinct(todo);
      assert Elements(todo) <= Ahead(s, file);
      SmallerSubset(Elements(todo), Ahead(s, file));
    }
  }

  lemma SmallerSubset(a: set<string>, b: set<string>)
    requires a <= b
    ensures |a| <= |b|
  {
    assert b == a + (b - a);
  }

  // ---- Getting to a file.

  /** The history goes on by a step that writes nothing. */
  lemma Onward(c: Config, most: nat, h: Trail, later: Trail, e: Step, keys: set<string>)
    requires Lawful(c, most, later) && GoesOn(c, most, h, later, keys)
    requires Possible(c, most, End(c, most, later), e) && !e.Write?
    ensures Lawful(c, most, On(later, e)) && GoesOn(c, most, h, On(later, e), keys)
    ensures End(c, most, On(later, e)) == After(c, most, End(c, most, later), e)
  {
  }

  lemma FreshPid(procs: map<nat, Proc>) returns (pid: nat)
    ensures pid !in procs
  {
    pid := Top(procs.Keys);
  }

  ghost function Top(pids: set<nat>): (n: nat)
    ensures forall p | p in pids :: p < n
  {
    if pids == {} then 0
    else
      var x :| x in pids;
      assert forall p | p in pids :: p == x || p in pids - {x};
      Max(x + 1, Top(pids - {x}))
  }

  const ANY := Raw({"soc_lab"}, Alert("", "", "", "100100", "", Enrichment.Other, "", ""))

  /** A new process lists the spool. */
  lemma Arrival(c: Config, most: nat, h: Trail, later: Trail, keys: set<string>)
    returns (next: Trail, pid: nat, todo: seq<string>)
    requires Lawful(c, most, later) && GoesOn(c, most, h, later, keys)
    ensures Lawful(c, most, next) && GoesOn(c, most, h, next, keys)
    ensures var s, n := End(c, most, later), End(c, most, next);
      && pid !in s.procs && Listing(todo, s.spool.Keys, most)
      && n.procs.Keys == s.procs.Keys + {pid} && n.procs[pid].Flushing? && n.procs[pid].todo == todo
      && (forall p | p in s.procs :: n.procs[p] == s.procs[p])
      && n.spool == s.spool && n.gateway == s.gateway
  {
    var s := End(c, most, later);
    pid := FreshPid(s.procs);
    todo := ListingExists(s.spool.Keys, most);
    var own;
    next, own := LaunchedNext(c, most, h, later, keys, pid, todo);
  }

  lemma LaunchedNext(c: Config, most: nat, h: Trail, later: Trail, keys: set<string>, pid: nat, todo: seq<string>)
    returns (next: Trail, own: Request)
    requires Lawful(c, most, later) && GoesOn(c, most, h, later, keys)
    requires pid !in End(c, most, later).procs && Listing(todo, End(c, most, later).spool.Keys, most)
    ensures Lawful(c, most, next) && GoesOn(c, most, h, next, keys)
    ensures var s, n := End(c, most, later), End(c, most, next);
      && n.procs == s.procs[pid := Flushing(todo, own)]
      && n.spool == s.spool && n.gateway == s.gateway
  {
    Onward(c, most, h, later, Launch(pid, ANY, todo), keys);
    next, own := On(later, Launch(pid, ANY, todo)), RequestFor(ANY.alert);
  }

  /** It skips the files before the one at hand. */
  lemma {:induction false} SkipTo(c: Config, most: nat, h: Trail, later: Trail, keys: set<string>, pid: nat, i: nat)
    returns (next: Trail)
    requires Lawful(c, most, later) && GoesOn(c, most, h, later, keys)
    requires pid in End(c, most, later).procs && End(c, most, later).procs[pid].Flushing?
    requires i <= |End(c, most, later).procs[pid].todo|
    ensures Lawful(c, most, next) && GoesOn(c, most, h, next, keys)
    ensures var s := End(c, most, later);
      End(c, most, next) == s.(procs := s.procs[pid := Flushing(s.procs[pid].todo[i..], s.procs[pid].own)])
    decreases i
  {
    var s := End(c, most, later);
    var p := s.procs[pid];
    if i == 0 {
      assert p.todo[0..] == p.todo && s.procs[pid := p] == s.procs;
      next := later;
    } else {
      Onward(c, most, h, later, Skip(pid), keys);
      next := SkipTo(c, most, h, On(later, Skip(pid)), keys, pid, i - 1);
      assert p.todo[1..][i - 1..] == p.todo[i..];
      assert s.procs[pid := Flushing(p.todo[1..], p.own)][pid := Flushing(p.todo[i..], p.own)]
          == s.procs[pid := Flushing(p.todo[i..], p.own)];
    }
  }

  /** Nothing but the file g, its key and one process has changed. */
  ghost predicate Spares(s: System, n: System, g: string, pid: nat) {
    && (forall f :: (f in n.spool <==> f in s.spool && f != g) && (f in n.spool ==> n.spool[f] == s.spool[f]))
    && (forall f | f != g && f in n.gateway.rows ::
          f in s.gateway.rows && s.gateway.rows[f].alert == n.gateway.rows[f].alert)
    && (forall f | f in s.gateway.rows :: f in n.gateway.rows && n.gateway.rows[f].alert == s.gateway.rows[f].alert)
    && (forall p | p in s.procs && p != pid :: p in n.procs && n.procs[p] == s.procs[p])
    && (forall p | p in n.procs && p != pid :: p in s.procs)
  }

  /** No file becomes stuck by that, except through the one process. */
  lemma SparedIsNotStuck(s: System, n: System, g: string, pid: nat, f: string)
    requires Spares(s, n, g, pid) && f != g && Stuck(n, f)
    requires pid in s.procs ==> !AboutToRemove(s, s.procs[pid], f)
    ensures Stuck(s, f)
  {
    forall p | p in s.procs && AboutToRemove(s, s.procs[p], f) ensures false {
      assert AboutToRemove(n, n.procs[p], f);
    }
  }

  /** The process sends the file, which is or becomes a row of the queue. */
  lemma SendOnly(c: Config, most: nat, h: Trail, later: Trail, keys: set<string>, pid: nat, g: string)
    returns (next: Trail)
    requires Lawful(c, most, later) && GoesOn(c, most, h, later, keys)
    requires var s := End(c, most, later);
      && pid in s.procs && s.procs[pid].Flushing? && s.procs[pid].todo != [] && s.procs[pid].todo[0] == g
      && g in s.spool && !Conflicts(s, g)
    ensures Lawful(c, most, next) && GoesOn(c, most, h, next, keys)
    ensures var s, n := End(c, most, later), End(c, most, next);
      && n.procs == s.procs[pid := AwaitingFile(Request(g, s.spool[g]), s.procs[pid].todo[1..], s.procs[pid].own)]
      && Holds(n, Request(g, s.spool[g])) && n.spool == s.spool
      && (forall f | f in n.gateway.rows :: f == g || f in s.gateway.rows)
      && (forall f | f in s.gateway.rows :: f in n.gateway.rows && n.gateway.rows[f].alert == s.gateway.rows[f].alert)
  {
    var s := End(c, most, later);
    var q := Request(g, s.spool[g]);
    Onward(c, most, h, later, SendFile(pid), keys);
    next := On(later, SendFile(pid));
    if g !in s.gateway.rows {
      Onward(c, most, h, next, Arrive(q), keys);
      next := On(next, Arrive(q));
    }
  }

  /** The process sends the file, is accepted, and removes it. */
  lemma SendAndRemove(c: Config, most: nat, h: Trail, later: Trail, keys: set<string>, pid: nat, g: string)
    returns (next: Trail)
    requires Lawful(c, most, later) && GoesOn(c, most, h, later, keys)
    requires var s := End(c, most, later);
      && pid in s.procs && s.procs[pid].Flushing? && s.procs[pid].todo != [] && s.procs[pid].todo[0] == g
      && g in s.spool && !Conflicts(s, g)
    ensures Lawful(c, most, next) && GoesOn(c, most, h, next, keys)
    ensures Spares(End(c, most, later), End(c, most, next), g, pid) && pid !in End(c, most, next).procs
  {
    next := SendOnly(c, most, h, later, keys, pid, g);
    Onward(c, most, h, next, Answered(pid, Answer.Accepted), keys);
    next := On(next, Answered(pid, Answer.Accepted));
    Onward(c, most, h, next, Unlink(pid), keys);
    next := On(next, Unlink(pid));
    Onward(c, most, h, next, Die(pid), keys);
    next := On(next, Die(pid));
  }

  // ---- Starvation exactly.

  /** The stuck files that come before this one. */
  ghost function StuckAhead(s: System, file: string): set<string> {
    set g | g in Ahead(s, file) && Stuck(s, g)
  }

  /** The file is in the spool, and a listing of it that has it is not there yet. */
  ghost predicate Waits(s: System, file: string) {
    file in s.spool && Untried(s, file)
  }

  /** No file before this one is stuck, except those in `keys`. */
  ghost predicate OnlyTheseStuck(s: System, file: string, keys: set<string>) {
    forall g | g in Ahead(s, file) && Stuck(s, g) :: g in keys
  }

  /** A process that is about to remove a file does so. */
  lemma RemoveDirectly(c: Config, most: nat, h: Trail, later: Trail, keys: set<string>, pid: nat, g: string)
    returns (next: Trail)
    requires Lawful(c, most, later) && GoesOn(c, most, h, later, keys) && g in End(c, most, later).spool
    requires pid in End(c, most, later).procs && AboutToRemove(End(c, most, later), End(c, most, later).procs[pid], g)
    ensures Lawful(c, most, next) && GoesOn(c, most, h, next, keys)
    ensures Spares(End(c, most, later), End(c, most, next), g, pid)
    ensures var s, n := End(c, most, later), End(c, most, next);
      pid in n.procs && n.procs[pid] == Flushing(s.procs[pid].todo, s.procs[pid].own)
  {
    next := later;
    if End(c, most, later).procs[pid].AwaitingFile? {
      Onward(c, most, h, later, Answered(pid, Answer.Accepted), keys);
      next := On(later, Answered(pid, Answer.Accepted));
    }
    Onward(c, most, h, next, Unlink(pid), keys);
    next := On(next, Unlink(pid));
  }

  /** The waiting is over, or one file fewer is in the way. */
  ghost predicate Nearer(s: System, n: System, file: string, g: string, keys: set<string>) {
    !Untried(n, file) ||
    (Waits(n, file) && OnlyTheseStuck(n, file, keys) && Ahead(n, file) == Ahead(s, file) - {g})
  }

  lemma OneProcessFewer(s: System, n: System, file: string, g: string, pid: nat, keys: set<string>)
    requires Waits(s, file) && OnlyTheseStuck(s, file, keys) && g != file && Spares(s, n, g, pid)
    requires pid in n.procs ==> Ignores(n.procs[pid], file)
    requires forall f | f != g && pid in s.procs :: !AboutToRemove(s, s.procs[pid], f)
    ensures Nearer(s, n, file, g, keys)
  {
    forall f | f in Ahead(n, file) && Stuck(n, f) ensures f in keys {
      SparedIsNotStuck(s, n, g, pid, f);
    }
    assert Ahead(n, file) == Ahead(s, file) - {g};
  }

  /** The first file before this one that is not stuck is removed. */
  lemma RemoveOne(c: Config, most: nat, h: Trail, later: Trail, keys: set<string>, file: string, g: string)
    returns (next: Trail)
    requires Lawful(c, most, later) && GoesOn(c, most, h, later, keys)
    requires Waits(End(c, most, later), file) && OnlyTheseStuck(End(c, most, later), file, keys)
    requires g in Ahead(End(c, most, later), file) && !Stuck(End(c, most, later), g)
    requires |Ahead(End(c, most, later), g)| < most
    ensures Lawful(c, most, next) && GoesOn(c, most, h, next, keys)
    ensures Nearer(End(c, most, later), End(c, most, next), file, g, keys)
  {
    var s := End(c, most, later);
    Text.LessTotal(file, file);
    if pid :| pid in s.procs && AboutToRemove(s, s.procs[pid], g) {
      next := RemoveDirectly(c, most, h, later, keys, pid, g);
      assert Ignores(s.procs[pid], file);
      OneProcessFewer(s, End(c, most, next), file, g, pid, keys);
    } else {
      next := RemoveByNewProcess(c, most, h, later, keys, file, g);
    }
  }

  /** A process that has the file before it sends and removes it. */
  lemma SkipAndRemove(c: Config, most: nat, h: Trail, later: Trail, keys: set<string>, pid: nat, g: string)
    returns (next: Trail)
    requires Lawful(c, most, later) && GoesOn(c, most, h, later, keys)
    requires var s := End(c, most, later);
      && pid in s.procs && s.procs[pid].Flushing? && g in s.procs[pid].todo && g in s.spool && !Conflicts(s, g)
    ensures Lawful(c, most, next) && GoesOn(c, most, h, next, keys)
    ensures Spares(End(c, most, later), End(c, most, next), g, pid) && pid !in End(c, most, next).procs
  {
    var s := End(c, most, later);
    var todo := s.procs[pid].todo;
    var i :| 0 <= i < |todo| && todo[i] == g;
    var m := SkipTo(c, most, h, later, keys, pid, i);
    next := SendAndRemove(c, most, h, m, keys, pid, g);
  }

  lemma RemoveByNewProcess(c: Config, most: nat, h: Trail, later: Trail, keys: set<string>, file: string, g: string)
    returns (next: Trail)
    requires Lawful(c, most, later) && GoesOn(c, most, h, later, keys)
    requires Waits(End(c, most, later), file) && OnlyTheseStuck(End(c, most, later), file, keys)
    requires g in Ahead(End(c, most, later), file) && !Conflicts(End(c, most, later), g)
    requires |Ahead(End(c, most, later), g)| < most
    ensures Lawful(c, most, next) && GoesOn(c, most, h, next, keys)
    ensures Nearer(End(c, most, later), End(c, most, next), file, g, keys)
  {
    var s := End(c, most, later);
    var m, pid, todo := Arrival(c, most, h, later, keys);
    if file in todo {
      next := m;
      assert !Ignores(End(c, most, next).procs[pid], file);
    } else {
      Listed(todo, s, most, g);
      next := SkipAndRemove(c, most, h, m, keys, pid, g);
      ByNewProcess(s, End(c, most, m), End(c, most, next), file, g, pid, keys);
    }
  }

  lemma ByNewProcess(s: System, m: System, n: System, file: string, g: string, pid: nat, keys: set<string>)
    requires pid !in s.procs && m.procs.Keys == s.procs.Keys + {pid} && m.spool == s.spool && m.gateway == s.gateway
    requires forall p | p in s.procs :: m.procs[p] == s.procs[p]
    requires Spares(m, n, g, pid) && pid !in n.procs
    requires Waits(s, file) && OnlyTheseStuck(s, file, keys) && g in Ahead(s, file)
    ensures Nearer(s, n, file, g, keys)
  {
    SparesFromBefore(s, m, n, g, pid);
    Text.LessTotal(file, file);
    OneProcessFewer(s, n, file, g, pid, keys);
  }

  lemma SparesFromBefore(s: System, m: System, n: System, g: string, pid: nat)
    requires pid !in s.procs && m.procs.Keys == s.procs.Keys + {pid} && m.spool == s.spool && m.gateway == s.gateway
    requires forall p | p in s.procs :: m.procs[p] == s.procs[p]
    requires Spares(m, n, g, pid)
    ensures Spares(s, n, g, pid)
  {
  }

  /** With fewer stuck files before it than a process tries, the file comes to be tried. */
  lemma {:induction false} ComesToBeTried(c: Config, most: nat, h: Trail, later: Trail, keys: set<string>, file: string)
    returns (next: Trail)
    requires Lawful(c, most, later) && GoesOn(c, most, h, later, keys) && |keys| < most
    requires Waits(End(c, most, later), file) && OnlyTheseStuck(End(c, most, later), file, keys)
    ensures GoesOn(c, most, h, next, keys) && !Untried(End(c, most, next), file)
    decreases Ahead(End(c, most, later), file)
  {
    var s := End(c, most, later);
    var free := set g | g in Ahead(s, file) && g !in keys;
    if free == {} {
      assert forall g | g in Ahead(s, file) :: g in keys || g in free;
      SmallerSubset(Ahead(s, file), keys);
      var m, pid, todo := Arrival(c, most, h, later, keys);
      Listed(todo, s, most, file);
      assert !Ignores(End(c, most, m).procs[pid], file);
      next := m;
    } else {
      var g := LeastName(free);
      FewBefore(s, file, g, keys);
      SmallerSubset(Ahead(s, g), keys);
      next := RemoveOne(c, most, h, later, keys, file, g);
      if Untried(End(c, most, next), file) {
        next := ComesToBeTried(c, most, h, next, keys, file);
      }
    }
  }

  lemma FewBefore(s: System, file: string, g: string, keys: set<string>)
    requires g in Ahead(s, file)
    requires forall f | f in Ahead(s, file) && f !in keys && f != g :: Text.Less(g, f)
    ensures Ahead(s, g) <= keys
  {
    forall f | f in Ahead(s, g) ensures f in keys {
      Text.LessTransitive(f, g, file);
      Text.LessTotal(f, g);
    }
  }

  lemma {:induction false} FewerKeys(c: Config, most: nat, h: Trail, later: Trail, keys: set<string>, more: set<string>)
    requires GoesOn(c, most, h, later, more) && keys <= more
    ensures GoesOn(c, most, h, later, keys)
  {
    if later != h {
      FewerKeys(c, most, h, later.before, keys, more);
    }
  }

  /**
   For as long as nothing is written under the keys of the stuck files before it, a spooled file is
   never tried if and only if there are as many of them as a process tries.
   */
  lemma StarvedExactly(c: Config, most: nat, h: Trail, file: string)
    requires Lawful(c, most, h) && Waits(End(c, most, h), file)
    ensures var stuck := StuckAhead(End(c, most, h), file);
      (forall later | GoesOn(c, most, h, later, stuck) :: Waits(End(c, most, later), file)) <==> |stuck| >= most
  {
    var s := End(c, most, h);
    var stuck := StuckAhead(s, file);
    if |stuck| >= most {
      forall later | GoesOn(c, most, h, later, stuck) ensures Waits(End(c, most, later), file) {
        StarvingStays(c, most, h, later, file, stuck);
      }
    } else {
      assert GoesOn(c, most, h, h, stuck);
      var later := ComesToBeTried(c, most, h, h, stuck, file);
    }
  }

  // ---- Starvation reached.

  /** Two forwarded alerts under one key. */
  datatype Pair = Pair(first: Alert, second: Alert) {
    predicate Valid() {
      first != second && KeyOf(first) == KeyOf(second) && Forwarded(first) && Forwarded(second)
    }
  }

  function PairKeys(pairs: seq<Pair>): seq<string> {
    seq(|pairs|, i requires 0 <= i < |pairs| => KeyOf(pairs[i].first))
  }

  /** A single process is about to send its own alert. */
  lemma Launched(c: Config, most: nat, h: Trail, a: Alert) returns (next: Trail)
    requires Lawful(c, most, h) && End(c, most, h).procs == map[] && Forwarded(a)
    ensures Lawful(c, most, next)
    ensures var s := End(c, most, h);
      End(c, most, next) == s.(procs := map[0 := Flushing([], RequestFor(a))], launched := s.launched + {RequestFor(a)})
  {
    var s, raw := End(c, most, h), Raw({"soc_lab"}, a);
    var todo := ListingExists(s.spool.Keys, most);
    Continue(c, most, h, Launch(0, raw, todo), iset{});
    next := On(h, Launch(0, raw, todo));
    next := SkipTo(c, most, next, next, {}, 0, |todo|);
    assert todo[|todo|..] == [];
    assert map[0 := Flushing(todo, RequestFor(a))][0 := Flushing([], RequestFor(a))]
        == map[0 := Flushing([], RequestFor(a))];
  }

  /** It has sent it, and waits for the answer. */
  lemma Asks(c: Config, most: nat, h: Trail, a: Alert) returns (next: Trail)
    requires Lawful(c, most, h) && End(c, most, h).procs == map[] && Forwarded(a)
    ensures Lawful(c, most, next)
    ensures var s, q := End(c, most, h), RequestFor(a);
      End(c, most, next) == s.(
        procs := map[0 := AwaitingOwn(q)], launched := s.launched + {q}, sent := s.sent + multiset{q})
  {
    var q := RequestFor(a);
    next := Launched(c, most, h, a);
    Continue(c, most, next, SendOwn(0), iset{});
    next := On(next, SendOwn(0));
    assert map[0 := Flushing([], q)][0 := AwaitingOwn(q)] == map[0 := AwaitingOwn(q)];
  }

  /** The gateway takes the alert. */
  lemma Delivered(c: Config, most: nat, h: Trail, a: Alert) returns (next: Trail)
    requires Lawful(c, most, h) && End(c, most, h).procs == map[] && Forwarded(a)
    requires KeyOf(a) !in End(c, most, h).gateway.rows
    ensures Lawful(c, most, next)
    ensures var s, n := End(c, most, h), End(c, most, next);
      && n.procs == map[] && n.spool == s.spool && RequestFor(a) in n.handled
      && n.gateway.rows.Keys == s.gateway.rows.Keys + {KeyOf(a)} && n.gateway.rows[KeyOf(a)].alert == a
      && forall k | k in s.gateway.rows :: n.gateway.rows[k] == s.gateway.rows[k]
  {
    var q := RequestFor(a);
    next := Asks(c, most, h, a);
    Continue(c, most, next, Arrive(q), iset{});
    next := On(next, Arrive(q));
    Continue(c, most, next, Answered(0, Answer.Accepted), iset{});
    next := On(next, Answered(0, Answer.Accepted));
  }

  /** The gateway does not answer, and the alert is spooled. */
  lemma Spooled(c: Config, most: nat, h: Trail, a: Alert) returns (next: Trail)
    requires Lawful(c, most, h) && End(c, most, h).procs == map[] && Forwarded(a)
    ensures Lawful(c, most, next)
    ensures var s, n := End(c, most, h), End(c, most, next);
      && n.procs == map[] && n.spool == s.spool[KeyOf(a) := a] && n.gateway == s.gateway && RequestFor(a) in n.handled
  {
    next := Asks(c, most, h, a);
    Continue(c, most, next, Answered(0, NoAnswer), iset{});
    next := On(next, Answered(0, NoAnswer));
    Continue(c, most, next, Write(0), iset{});
    next := On(next, Write(0));
  }

  /** Nothing is under way, and just these files are in the spool and in conflict. */
  ghost predicate JustConflicts(c: Config, most: nat, h: Trail, keys: set<string>) {
    && Lawful(c, most, h) && End(c, most, h).procs == map[]
    && End(c, most, h).spool.Keys == keys && End(c, most, h).gateway.rows.Keys == keys
    && forall f | f in keys :: Conflicts(End(c, most, h), f)
  }

  lemma OneMoreConflict(c: Config, most: nat, h: Trail, p: Pair, keys: set<string>) returns (next: Trail)
    requires JustConflicts(c, most, h, keys) && p.Valid() && KeyOf(p.first) !in keys
    ensures JustConflicts(c, most, next, keys + {KeyOf(p.first)})
  {
    next := Delivered(c, most, h, p.first);
    next := Spooled(c, most, next, p.second);
  }

  lemma LastKey(pairs: seq<Pair>)
    requires pairs != [] && Ascending(PairKeys(pairs), Text.Less)
    ensures var front, key := pairs[..|pairs| - 1], KeyOf(pairs[|pairs| - 1].first);
      && Ascending(PairKeys(front), Text.Less) && key !in Elements(PairKeys(front))
      && Elements(PairKeys(pairs)) == Elements(PairKeys(front)) + {key}
  {
    var front, key := pairs[..|pairs| - 1], KeyOf(pairs[|pairs| - 1].first);
    assert PairKeys(pairs) == PairKeys(front) + [key];
    forall i, j | 0 <= i < j < |front| ensures Text.Less(PairKeys(front)[i], PairKeys(front)[j]) {
      assert PairKeys(pairs)[i] == PairKeys(front)[i] && PairKeys(pairs)[j] == PairKeys(front)[j];
    }
    forall i | 0 <= i < |front| ensures PairKeys(front)[i] != key {
      assert PairKeys(pairs)[i] == PairKeys(front)[i] && PairKeys(pairs)[|front|] == key;
      Text.LessTotal(key, key);
    }
  }

  /** Every pair leaves a file in the spool that conflicts with the queue. */
  lemma {:induction false} AllConflict(c: Config, most: nat, pairs: seq<Pair>) returns (h: Trail)
    requires Ascending(PairKeys(pairs), Text.Less) && forall p | p in pairs :: p.Valid()
    ensures JustConflicts(c, most, h, Elements(PairKeys(pairs)))
  {
    if pairs == [] {
      h := Fresh(0);
    } else {
      var front, last := pairs[..|pairs| - 1], pairs[|pairs| - 1];
      LastKey(pairs);
      h := AllConflict(c, most, front);
      h := OneMoreConflict(c, most, h, last, Elements(PairKeys(front)));
    }
  }

  /** Starvation occurs wherever there are as many such pairs, and a later file. */
  lemma StarvationReached(c: Config, most: nat, pairs: seq<Pair>, d: Alert) returns (h: Trail)
    requires |pairs| >= most && (forall p | p in pairs :: p.Valid()) && Forwarded(d)
    requires Ascending(PairKeys(pairs) + [KeyOf(d)], Text.Less)
    ensures Lawful(c, most, h) && RequestFor(d) in End(c, most, h).handled
    ensures Waits(End(c, most, h), KeyOf(d)) && |StuckAhead(End(c, most, h), KeyOf(d))| >= most
  {
    var keys, file := PairKeys(pairs), KeyOf(d);
    var all := keys + [file];
    assert forall i | 0 <= i < |keys| :: keys[i] == all[i] && Text.Less(all[i], all[|keys|]);
    assert Ascending(keys, Text.Less);
    h := AllConflict(c, most, pairs);
    h := Spooled(c, most, h, d);
    Text.LessTotal(file, file);
    AscendingDistinct(keys);
    assert Elements(keys) <= StuckAhead(End(c, most, h), file);
    SmallerSubset(Elements(keys), StuckAhead(End(c, most, h), file));
  }

  /** Alerts that can be told apart by their identifiers, or else not by their keys. */
  function Numbered(n: nat, other: string): Alert {
    Alert(seq(n, _ => '1'), "", "", "100100", "", Enrichment.Other, "", other)
  }

  lemma NumberedKeys(m: nat, n: nat)
    requires KeyOf(Numbered(m, "")) == KeyOf(Numbered(n, ""))
    ensures m == n
  {
    var a, b := Numbered(m, ""), Numbered(n, "");
    var x, y := Text.Join("|", [a.id, "", "", "100100"]), Text.Join("|", [b.id, "", "", "100100"]);
    assert Digest(x) == KeyOf(a)[6..] && Digest(y) == KeyOf(b)[6..];
    DigestInjective(x, y);
    var rest := Text.Join("|", ["", "", "100100"]);
    assert x == a.id + "|" + rest && y == b.id + "|" + rest;
    assert |x| == m + 1 + |rest| && |y| == n + 1 + |rest|;
  }

  ghost function Image(f: nat -> string, n: nat): set<string> {
    set i: nat | i < n :: f(i)
  }

  lemma {:induction false} ImageCount(f: nat -> string, n: nat)
    requires forall i, j :: f(i) == f(j) ==> i == j
    ensures |Image(f, n)| == n
  {
    if n > 0 {
      ImageCount(f, n - 1);
      assert Image(f, n) == Image(f, n - 1) + {f(n - 1)};
    }
  }

  function KeyNumber(n: nat): string {
    KeyOf(Numbered(n, ""))
  }

  lemma KeysBelowCount(n: nat)
    ensures |Image(KeyNumber, n)| == n
  {
    forall i: nat, j: nat | KeyNumber(i) == KeyNumber(j) ensures i == j {
      NumberedKeys(i, j);
    }
    ImageCount(KeyNumber, n);
  }

  /** The number of the alerts with this key. */
  ghost function NumberOf(key: string, n: nat): (i: nat)
    requires key in Image(KeyNumber, n)
    ensures KeyNumber(i) == key
  {
    var i: nat :| i < n && KeyNumber(i) == key;
    i
  }

  ghost function PairUnder(key: string, n: nat): (p: Pair)
    requires key in Image(KeyNumber, n)
    ensures p.Valid() && KeyOf(p.first) == key
  {
    var p := Pair(Numbered(NumberOf(key, n), ""), Numbered(NumberOf(key, n), "again"));
    assert p.first.other != p.second.other;
    p
  }

  lemma FullListing(names: set<string>) returns (todo: seq<string>)
    ensures Ascending(todo, Text.Less) && |todo| == |names| && forall f | f in todo :: f in names
  {
    todo := ListingExists(names, |names|);
    AscendingDistinct(todo);
    if forall f | f in names :: f in todo {
      assert Elements(todo) == names;
    }
  }

  ghost function PairsUnder(keys: seq<string>, n: nat): (pairs: seq<Pair>)
    requires forall f | f in keys :: f in Image(KeyNumber, n)
    ensures PairKeys(pairs) == keys && forall p | p in pairs :: p.Valid()
  {
    if keys == [] then []
    else
      var pairs := [PairUnder(keys[0], n)] + PairsUnder(keys[1..], n);
      assert PairKeys(pairs) == [keys[0]] + PairKeys(pairs[1..]);
      pairs
  }

  /** There are as many such pairs as one likes, and an alert whose key comes after theirs. */
  lemma ManyPairs(most: nat) returns (pairs: seq<Pair>, d: Alert)
    ensures |pairs| == most && (forall p | p in pairs :: p.Valid()) && Forwarded(d)
    ensures Ascending(PairKeys(pairs) + [KeyOf(d)], Text.Less)
  {
    var n := most + 1;
    KeysBelowCount(n);
    var todo := FullListing(Image(KeyNumber, n));
    pairs := PairsUnder(todo[..most], n);
    var last := PairUnder(todo[most], n);
    d := last.first;
    assert PairKeys(pairs) + [KeyOf(d)] == todo;
  }

  /** Whatever the number of files that a process tries, starvation occurs. */
  lemma StarvationOccurs(c: Config, most: nat) returns (h: Trail, file: string)
    ensures Lawful(c, most, h) && Waits(End(c, most, h), file)
    ensures |StuckAhead(End(c, most, h), file)| >= most
    ensures forall later | GoesOn(c, most, h, later, StuckAhead(End(c, most, h), file)) ::
              Waits(End(c, most, later), file)
  {
    var pairs, d := ManyPairs(most);
    h := StarvationReached(c, most, pairs, d);
    file := KeyOf(d);
    StarvedExactly(c, most, h, file);
  }

  // ---- Alerts that are given up.

  /** The processes that wait for the answer to this request. */
  function Waiters(s: System, q: Request): set<nat> {
    set pid | pid in s.procs && Awaiting(s.procs[pid]) && Asked(s.procs[pid]) == q
  }

  lemma Fewer(a: set<nat>, b: set<nat>)
    requires a <= b
    ensures |a| <= |b|
  {
    assert b == a + (b - a);
  }

  lemma WaitersAnswered(s: System, pid: nat, answer: Answer, q: Request)
    requires pid in s.procs && Awaiting(s.procs[pid]) && |Waiters(s, q)| <= s.sent[q]
    ensures |Waiters(AfterAnswer(s, pid, answer), q)| <= AfterAnswer(s, pid, answer).sent[q]
  {
    assert Waiters(AfterAnswer(s, pid, answer), q) == Waiters(s, q) - {pid};
    assert Asked(s.procs[pid]) == q <==> pid in Waiters(s, q);
  }

  lemma WaitersSent(s: System, n: System, pid: nat, r: Request, p: Proc, q: Request)
    requires pid in s.procs && s.procs[pid].Flushing? && Awaiting(p) && Asked(p) == r
    requires n.procs == s.procs[pid := p] && n.sent == s.sent + multiset{r} && |Waiters(s, q)| <= s.sent[q]
    ensures |Waiters(n, q)| <= n.sent[q]
  {
    assert n.sent[q] == s.sent[q] + if r == q then 1 else 0;
    assert Waiters(n, q) == Waiters(s, q) + if r == q then {pid} else {};
  }

  lemma WaitersStep(c: Config, most: nat, s: System, e: Step, q: Request)
    requires Possible(c, most, s, e) && |Waiters(s, q)| <= s.sent[q]
    ensures |Waiters(After(c, most, s, e), q)| <= After(c, most, s, e).sent[q]
  {
    var n := After(c, most, s, e);
    if e.Answered? {
      WaitersAnswered(s, e.pid, e.answer, q);
    } else if e.SendFile? || e.SendOwn? {
      WaitersSent(s, n, e.pid, Asked(n.procs[e.pid]), n.procs[e.pid], q);
    } else {
      assert n.sent == s.sent;
      Fewer(Waiters(n, q), Waiters(s, q));
    }
  }

  /** As many requests are under way as processes wait for. */
  lemma {:induction false} AwaitedIsSent(c: Config, most: nat, h: Trail, q: Request)
    requires Lawful(c, most, h)
    ensures |Waiters(End(c, most, h), q)| <= End(c, most, h).sent[q]
  {
    if h.On? {
      AwaitedIsSent(c, most, h.before, q);
      WaitersStep(c, most, End(c, most, h.before), h.step, q);
    }
  }

  /** The alert itself is in the queue or in the spool. */
  predicate KeptItself(s: System, q: Request) {
    Holds(s, q) || (q.key in s.spool && s.spool[q.key] == q.alert)
  }

  /** A process to which this alert was handed sends or stores it. */
  predicate Offers(s: System, e: Step, q: Request) {
    (e.SendOwn? || e.Write?) && e.pid in s.procs && s.procs[e.pid].own == q
  }

  /** A lawful history from h on, in which no process sends or stores this alert of its own. */
  ghost predicate LeavesIt(c: Config, most: nat, h: Trail, later: Trail, q: Request) {
    later == h || (
      && later.On? && LeavesIt(c, most, h, later.before, q)
      && Possible(c, most, End(c, most, later.before), later.step)
      && !Offers(End(c, most, later.before), later.step, q))
  }

  /** Such a history, after which the alert is kept. */
  ghost predicate KeptBy(c: Config, most: nat, h: Trail, later: Trail, q: Request) {
    LeavesIt(c, most, h, later, q) && KeptItself(End(c, most, later), q)
  }

  /** The alert is kept nowhere, and no request for it can bring it to the queue. */
  predicate Gone(s: System, q: Request) {
    !KeptItself(s, q) && (q.key in s.gateway.rows || q !in s.sent)
  }

  lemma GoneAnswer(s: System, pid: nat, answer: Answer, q: Request)
    requires pid in s.procs && Awaiting(s.procs[pid]) && Gone(s, q)
    ensures Gone(AfterAnswer(s, pid, answer), q)
  {
  }

  lemma GoneStep(c: Config, most: nat, s: System, e: Step, q: Request)
    requires Exclusive(s.gateway) && Possible(c, most, s, e) && Gone(s, q) && !Offers(s, e, q)
    ensures Gone(After(c, most, s, e), q)
  {
    if e.Answered? {
      GoneAnswer(s, e.pid, e.answer, q);
    } else if e.Inside? {
      GatewayStep(c, s.gateway, e.event);
    } else if e.Arrive? {
      GatewayStep(c, s.gateway, Intake(e.request.key, e.request.alert));
    }
  }

  lemma {:induction false} GoneStays(c: Config, most: nat, h: Trail, later: Trail, q: Request)
    requires Lawful(c, most, h) && Gone(End(c, most, h), q) && LeavesIt(c, most, h, later, q)
    ensures Lawful(c, most, later) && Gone(End(c, most, later), q)
  {
    if later != h {
      GoneStays(c, most, h, later.before, q);
      SaneAlways(c, most, later.before);
      GoneStep(c, most, End(c, most, later.before), later.step, q);
    }
  }

  /** Otherwise it is kept, or a request for it arrives after all. */
  lemma ArrivesAfterAll(c: Config, most: nat, h: Trail, q: Request) returns (later: Trail)
    requires Lawful(c, most, h) && !Gone(End(c, most, h), q)
    ensures KeptBy(c, most, h, later, q)
  {
    later := h;
    assert LeavesIt(c, most, h, h, q);
    if !KeptItself(End(c, most, h), q) {
      Continue(c, most, h, Arrive(q), iset{});
      later := On(h, Arrive(q));
    }
  }

  lemma GoneExactly(c: Config, most: nat, h: Trail, q: Request)
    requires Lawful(c, most, h)
    ensures (forall later :: !KeptBy(c, most, h, later, q)) <==> Gone(End(c, most, h), q)
  {
    if Gone(End(c, most, h), q) {
      forall later ensures !KeptBy(c, most, h, later, q) {
        if LeavesIt(c, most, h, later, q) {
          GoneStays(c, most, h, later, q);
        }
      }
    } else {
      var later := ArrivesAfterAll(c, most, h, q);
    }
  }

  lemma RefusedState(s: System, pid: nat)
    requires pid in s.procs && s.procs[pid].AwaitingOwn?
    ensures var n, q := AfterAnswer(s, pid, Rejected), s.procs[pid].own;
      && (KeptItself(n, q) <==> KeptItself(s, q)) && n.gateway == s.gateway
      && (Gone(n, q) <==> !KeptItself(s, q) && (q.key in s.gateway.rows || s.sent[q] <= 1))
  {
  }

  /**
   A process whose own alert is refused for good gives it up. The alert is kept nowhere from then on,
   unless a process has it to send or store once more, exactly if it was not kept already and either the
   gateway holds its key with another alert or no other request for it is under way.
   */
  lemma GivenUpExactly(c: Config, most: nat, h: Trail, pid: nat)
    requires Lawful(c, most, h) && pid in End(c, most, h).procs && End(c, most, h).procs[pid].AwaitingOwn?
    ensures var s, refused := End(c, most, h), On(h, Answered(pid, Rejected)); var q := s.procs[pid].own;
      && Lawful(c, most, refused)
      && ((forall later :: !KeptBy(c, most, refused, later, q)) <==>
          !KeptItself(s, q) && (q.key in s.gateway.rows || s.sent[q] == 1))
  {
    var s, refused := End(c, most, h), On(h, Answered(pid, Rejected));
    var q := s.procs[pid].own;
    Continue(c, most, h, Answered(pid, Rejected), iset{});
    RefusedState(s, pid);
    AwaitedIsSent(c, most, h, q);
    assert pid in Waiters(s, q);
    GoneExactly(c, most, refused, q);
  }

  /** A refusal in the queue: two forwarded alerts under one key, and the second is refused as a conflict. */
  lemma GivenUpReached(c: Config, most: nat, p: Pair) returns (h: Trail)
    requires p.Valid()
    ensures Lawful(c, most, h) && h.On? && h.step == Answered(0, Rejected)
    ensures var s, q := End(c, most, h), RequestFor(p.second);
      Gone(s, q) && q in s.launched && s.procs == map[] && q.key in s.gateway.rows
  {
    h := Fresh(0);
    h := Delivered(c, most, h, p.first);
    h := Refused(c, most, h, p.second);
  }

  /** A refusal of the first alert under a key: it is in neither the queue nor the spool, and nothing is under way. */
  lemma RefusedAtOnce(c: Config, most: nat, a: Alert) returns (h: Trail)
    requires Forwarded(a)
    ensures Lawful(c, most, h) && h.On? && h.step == Answered(0, Rejected)
    ensures var s, q := End(c, most, h), RequestFor(a);
      Gone(s, q) && q in s.launched && s.procs == map[] && s.gateway.rows == map[] && s.spool == map[] && q !in s.sent
  {
    h := Refused(c, most, Fresh(0), a);
  }

  lemma Refused(c: Config, most: nat, h: Trail, a: Alert) returns (next: Trail)
    requires Lawful(c, most, h) && End(c, most, h).procs == map[] && Forwarded(a)
    ensures Lawful(c, most, next) && next.On? && next.step == Answered(0, Rejected)
    ensures var s, n := End(c, most, h), End(c, most, next);
      && n.procs == map[] && n.spool == s.spool && n.gateway == s.gateway && n.sent == s.sent
      && n.launched == s.launched + {RequestFor(a)}
  {
    next := Asks(c, most, h, a);
    Continue(c, most, next, Answered(0, Rejected), iset{});
    next := On(next, Answered(0, Rejected));
  }
}
