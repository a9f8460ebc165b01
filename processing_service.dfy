/**
 * The screening service: `process_thread`, the body of the background thread
 * that `process_data` starts, and `load_thread`, the body of the one that
 * `load_file_async` starts. Starting the threads is outside the model; each body
 * runs here to its end, and the callbacks it calls are recorded, in order, as
 * events.
 */
module ProcessingService {
  import opened Wrappers
  import opened Ranking
  import opened SanctionsRepository
  import opened PersonModel
  import FileRepository

  /** Which of `on_progress`, `on_match_found` and `on_complete` were supplied. */
  datatype Callbacks = Callbacks(onProgress: bool, onMatchFound: bool, onComplete: bool)

  /** One callback call: `on_progress(done, total)`, `on_match_found(person)`, `on_complete(matches, total)`. */
  datatype Event = Progress(done: nat, total: nat) | MatchFound(person: Person) | Complete(matches: nat, total: nat)

  /** What the loop reads of a client: the names it searches for and the match counter. */
  datatype Client = Client(name: string, surname: string, count: int)

  function Snapshot(people: seq<Person>): (r: seq<Client>)
    reads people
    ensures |r| == |people|
    ensures forall k :: 0 <= k < |people| ==> r[k] == Client(people[k].name, people[k].surname, people[k].count)
  {
    if people == [] then []
    else Snapshot(people[..|people| - 1]) + [Client(people[|people| - 1].name, people[|people| - 1].surname, people[|people| - 1].count)]
  }

  // ---------------------------------------------------------------------------
  // What one client's search yields
  // ---------------------------------------------------------------------------

  /** The rows `find_person_by_name` keeps for a client. */
  function Matches(lib: Foreign, t: AliasTable, c: Client): seq<Alias> {
    Positive(t.rows, ScoreOf(lib, c.name, c.surname))
  }

  /** The search result is not empty. */
  predicate Hit(lib: Foreign, t: AliasTable, c: Client) {
    Matches(lib, t, c) != []
  }

  /** `filtered_names['Entity_LogicalId'].unique()`, as a set (NaN is `None`). */
  function EntityIds(s: seq<Alias>): (ids: set<Option<string>>)
    ensures forall a :: a in s ==> a.entityId in ids
    ensures forall id :: id in ids ==> exists a :: a in s && a.entityId == id
  {
    set a | a in s :: a.entityId
  }

  /**
   * The whole names of the rows whose entity is among `ids`, in table order and
   * with repetitions (`isin`, which also matches NaN with NaN, then `tolist()`).
   */
  function NamesOfEntities(rows: seq<Alias>, ids: set<Option<string>>): (names: seq<string>)
    ensures forall x :: x in names <==> exists i :: 0 <= i < |rows| && rows[i].entityId in ids && rows[i].wholeName == x
    ensures |names| <= |rows|
  {
    if rows == [] then []
    else
      var last := rows[|rows| - 1];
      var init := NamesOfEntities(rows[..|rows| - 1], ids);
      assert forall i :: 0 <= i < |rows| - 1 ==> rows[..|rows| - 1][i] == rows[i];
      init + if last.entityId in ids then [last.wholeName] else []
  }

  /** One row contributes its whole name exactly when its entity is among `ids`. */
  lemma NamesOfEntitiesOne(row: Alias, ids: set<Option<string>>)
    ensures NamesOfEntities([row], ids) == if row.entityId in ids then [row.wholeName] else []
  {
    assert [row][..0] == [];
  }

  /**
   * The names follow the table: those of a concatenation are those of the first
   * part, then those of the second, so table order and repetitions are kept.
   */
  lemma {:induction false} NamesOfEntitiesAppend(a: seq<Alias>, b: seq<Alias>, ids: set<Option<string>>)
    ensures NamesOfEntities(a + b, ids) == NamesOfEntities(a, ids) + NamesOfEntities(b, ids)
    decreases |b|
  {
    if b == [] {
      assert a + b == a;
    } else {
      var ab := a + b;
      var init := b[..|b| - 1];
      assert ab[..|ab| - 1] == a + init;
      assert ab[|ab| - 1] == b[|b| - 1];
      NamesOfEntitiesAppend(a, init, ids);
    }
  }

  /** The names stored on a matched client: every alias of every entity it matched. */
  function MatchingNames(lib: Foreign, t: AliasTable, c: Client): seq<string> {
    NamesOfEntities(t.rows, EntityIds(Matches(lib, t, c)))
  }

  /** A matched row's own whole name is among the names stored on the client. */
  lemma DirectMatchesIncluded(lib: Foreign, t: AliasTable, c: Client, a: Alias)
    requires a in Matches(lib, t, c)
    ensures a.wholeName in MatchingNames(lib, t, c)
  {
    PositiveMembers(t.rows, ScoreOf(lib, c.name, c.surname));
    var i :| 0 <= i < |t.rows| && t.rows[i] == a;
  }

  /** Two sequences with the same elements have the same entity ids. */
  lemma SameIds(s: seq<Alias>, u: seq<Alias>)
    requires multiset(s) == multiset(u)
    ensures EntityIds(s) == EntityIds(u)
    ensures s == [] <==> u == []
  {
    assert forall a :: a in s <==> a in multiset(s);
    assert forall a :: a in u <==> a in multiset(u);
    assert |s| == |multiset(s)| && |u| == |multiset(u)|;
  }

  // ---------------------------------------------------------------------------
  // What the whole run yields
  // ---------------------------------------------------------------------------

  /** What screening one client found: whether the search hit, and the names to store. */
  datatype Outcome = Outcome(hit: bool, names: seq<string>)

  function OutcomeOf(lib: Foreign, t: AliasTable, c: Client): Outcome {
    Outcome(Hit(lib, t, c), MatchingNames(lib, t, c))
  }

  function OutcomeFn(lib: Foreign, t: AliasTable): Client -> Outcome {
    c => OutcomeOf(lib, t, c)
  }

  /** `outcome` gives, client by client, what screening against `t` finds. */
  ghost predicate Faithful(lib: Foreign, t: AliasTable, outcome: Client -> Outcome) {
    forall c {:trigger OutcomeOf(lib, t, c)} :: outcome(c) == OutcomeOf(lib, t, c)
  }

  /** The outcome of every client, in order. */
  function Outcomes(outcome: Client -> Outcome, cs: seq<Client>): (os: seq<Outcome>)
    ensures |os| == |cs|
    ensures forall k :: 0 <= k < |cs| ==> os[k] == outcome(cs[k])
  {
    if cs == [] then [] else Outcomes(outcome, cs[..|cs| - 1]) + [outcome(cs[|cs| - 1])]
  }

  /** The client is reported: its search hit, and the incremented counter is positive. */
  predicate Reported(c: Client, o: Outcome) {
    o.hit && c.count + 1 > 0
  }

  /** The index of the first hit, or the number of clients. */
  function FirstHit(os: seq<Outcome>): (r: nat)
    ensures r <= |os|
    ensures forall k :: 0 <= k < r ==> !os[k].hit
    ensures r < |os| ==> os[r].hit
  {
    if os == [] then 0 else if os[0].hit then 0 else 1 + FirstHit(os[1..])
  }

  /**
   * Where the loop stops: without an entity-id column (`hasIds` false) the first
   * hit raises `KeyError`, which ends the thread; otherwise every client is screened.
   */
  function StopAt(hasIds: bool, os: seq<Outcome>): (r: nat)
    ensures r <= |os|
    ensures r < |os| <==> !hasIds && exists k :: 0 <= k < |os| && os[k].hit
  {
    if hasIds then |os| else FirstHit(os)
  }

  /** The callbacks of one fully screened client with index `k` of `n`. */
  function StepEvents(cb: Callbacks, c: Client, o: Outcome, p: Person, k: nat, n: nat): seq<Event> {
    (if cb.onProgress then [Progress(k, n)] else [])
    + (if Reported(c, o) && cb.onMatchFound then [MatchFound(p)] else [])
  }

  /** The callbacks of the first `i` clients, all fully screened, with their outcomes `os` and persons `ps`. */
  function LoopEvents(cb: Callbacks, cs: seq<Client>, os: seq<Outcome>, ps: seq<Person>, i: nat): seq<Event>
    requires |cs| == |os| == |ps| && i <= |cs|
  {
    if i == 0 then []
    else LoopEvents(cb, cs, os, ps, i - 1) + StepEvents(cb, cs[i - 1], os[i - 1], ps[i - 1], i - 1, |cs|)
  }

  /** How many of the first `i` clients are reported. */
  function ReportedCount(cs: seq<Client>, os: seq<Outcome>, i: nat): (r: nat)
    requires |cs| == |os| && i <= |cs|
    ensures r <= i
  {
    if i == 0 then 0
    else ReportedCount(cs, os, i - 1) + if Reported(cs[i - 1], os[i - 1]) then 1 else 0
  }

  /**
   * Every callback of a run: the screened clients' events, then either the
   * progress call of the client whose search raised, or the final progress call
   * and the completion call.
   */
  function RunEvents(cb: Callbacks, hasIds: bool, cs: seq<Client>, os: seq<Outcome>, ps: seq<Person>): seq<Event>
    requires |cs| == |os| == |ps|
  {
    var n := |cs|;
    var stop := StopAt(hasIds, os);
    if stop < n then
      LoopEvents(cb, cs, os, ps, stop) + (if cb.onProgress then [Progress(stop, n)] else [])
    else
      LoopEvents(cb, cs, os, ps, n)
      + (if cb.onProgress then [Progress(n, n)] else [])
      + (if cb.onComplete then [Complete(ReportedCount(cs, os, n), n)] else [])
  }

  /** A run that screens every client: their events, the final progress call and the completion call. */
  lemma RunEventsFinished(cb: Callbacks, hasIds: bool, cs: seq<Client>, os: seq<Outcome>, ps: seq<Person>)
    requires |cs| == |os| == |ps| && StopAt(hasIds, os) == |cs|
    ensures RunEvents(cb, hasIds, cs, os, ps)
            == LoopEvents(cb, cs, os, ps, |cs|)
               + (if cb.onProgress then [Progress(|cs|, |cs|)] else [])
               + (if cb.onComplete then [Complete(ReportedCount(cs, os, |cs|), |cs|)] else [])
  {
  }

  /** A lookup that raises at client `i` before the run has stopped is where the run stops. */
  lemma StopsHere(hasIds: bool, os: seq<Outcome>, i: nat)
    requires i < |os| && i <= StopAt(hasIds, os)
    requires os[i].hit && !hasIds
    ensures StopAt(hasIds, os) == i
  {
  }

  /** A loop that has screened client `i` without raising has not reached where the run stops. */
  lemma BeforeStop(hasIds: bool, os: seq<Outcome>, i: nat)
    requires i < |os| && i <= StopAt(hasIds, os)
    requires !(os[i].hit && !hasIds)
    ensures i + 1 <= StopAt(hasIds, os)
  {
  }

  // ---------------------------------------------------------------------------
  // What the callbacks of a run see
  // ---------------------------------------------------------------------------

  /** The `done` argument of every progress call, in order. */
  function Marks(es: seq<Event>): seq<nat> {
    if es == [] then []
    else Marks(es[..|es| - 1]) + if es[|es| - 1].Progress? then [es[|es| - 1].done] else []
  }

  /** The person of every match call, in order. */
  function Found(es: seq<Event>): seq<Person> {
    if es == [] then []
    else Found(es[..|es| - 1]) + if es[|es| - 1].MatchFound? then [es[|es| - 1].person] else []
  }

  /** The progress marks of `i` screened clients: `0 .. i - 1` when `on_progress` is given, none otherwise. */
  function Ticks(progress: bool, i: nat): seq<nat> {
    if i == 0 || !progress then [] else Ticks(progress, i - 1) + [i - 1]
  }

  /** The progress mark of client `k`. */
  function Tick(progress: bool, k: nat): seq<nat> {
    if progress then [k] else []
  }

  /** With `on_progress` given, the marks are `0, 1, ..., i - 1`. */
  lemma {:induction false} TicksCount(progress: bool, i: nat)
    ensures progress ==> |Ticks(progress, i)| == i && forall k :: 0 <= k < i ==> Ticks(progress, i)[k] == k
    ensures !progress ==> Ticks(progress, i) == []
  {
    if i > 0 && progress {
      TicksCount(progress, i - 1);
      assert forall k :: 0 <= k < i - 1 ==> Ticks(progress, i)[k] == Ticks(progress, i - 1)[k];
    }
  }

  /** The person `on_match_found` is called with for one client, if any. */
  function Pick(matchFound: bool, c: Client, o: Outcome, p: Person): seq<Person> {
    if matchFound && Reported(c, o) then [p] else []
  }

  /** The reported persons among the first `i` clients, in roster order, when `on_match_found` is given. */
  function Picks(matchFound: bool, cs: seq<Client>, os: seq<Outcome>, ps: seq<Person>, i: nat): seq<Person>
    requires |cs| == |os| == |ps| && i <= |cs|
  {
    if i == 0 || !matchFound then [] else Picks(matchFound, cs, os, ps, i - 1) + Pick(matchFound, cs[i - 1], os[i - 1], ps[i - 1])
  }

  /**
   * The picked persons are the reported clients' persons, in roster order: one
   * per reported client, each at a position no later than its client's.
   */
  lemma {:induction false} PicksReported(matchFound: bool, cs: seq<Client>, os: seq<Outcome>, ps: seq<Person>, i: nat)
    requires |cs| == |os| == |ps| && i <= |cs|
    ensures matchFound ==> |Picks(matchFound, cs, os, ps, i)| == ReportedCount(cs, os, i)
    ensures !matchFound ==> Picks(matchFound, cs, os, ps, i) == []
    ensures forall p :: p in Picks(matchFound, cs, os, ps, i) ==>
              exists k :: 0 <= k < i && ps[k] == p && Reported(cs[k], os[k])
  {
    if i > 0 && matchFound {
      PicksReported(matchFound, cs, os, ps, i - 1);
      var prev := Picks(matchFound, cs, os, ps, i - 1);
      var pick := Pick(matchFound, cs[i - 1], os[i - 1], ps[i - 1]);
      assert Picks(matchFound, cs, os, ps, i) == prev + pick;
      forall p | p in prev + pick ensures exists k :: 0 <= k < i && ps[k] == p && Reported(cs[k], os[k]) {
        if p in prev {
          var k :| 0 <= k < i - 1 && ps[k] == p && Reported(cs[k], os[k]);
        } else {
          assert ps[i - 1] == p && Reported(cs[i - 1], os[i - 1]);
        }
      }
    }
  }

  /** How many of the first `i` searches hit. */
  function HitCount(os: seq<Outcome>, i: nat): nat
    requires i <= |os|
  {
    if i == 0 then 0 else HitCount(os, i - 1) + if os[i - 1].hit then 1 else 0
  }

  /** No call is a completion call, and every progress call has the total `n`. */
  predicate Midway(es: seq<Event>, n: nat) {
    forall k :: 0 <= k < |es| ==> !es[k].Complete? && (es[k].Progress? ==> es[k].total == n)
  }

  lemma {:induction false} MarksAppend(a: seq<Event>, b: seq<Event>)
    ensures Marks(a + b) == Marks(a) + Marks(b)
    ensures Found(a + b) == Found(a) + Found(b)
    decreases |b|
  {
    if b == [] {
      assert a + b == a;
    } else {
      var b' := b[..|b| - 1];
      assert (a + b)[..|a + b| - 1] == a + b';
      assert (a + b)[|a + b| - 1] == b[|b| - 1];
      MarksAppend(a, b');
    }
  }

  /** The progress and match calls of an event list of at most one event. */
  lemma MarksOfOne(es: seq<Event>)
    requires |es| <= 1
    ensures Marks(es) == if es != [] && es[0].Progress? then [es[0].done] else []
    ensures Found(es) == if es != [] && es[0].MatchFound? then [es[0].person] else []
  {
    if es != [] {
      assert es[..0] == [];
    }
  }

  /** The progress call of one client carries its index. */
  lemma StepMarks(cb: Callbacks, c: Client, o: Outcome, p: Person, k: nat, n: nat)
    ensures Marks(StepEvents(cb, c, o, p, k, n)) == Tick(cb.onProgress, k)
  {
    var a: seq<Event> := if cb.onProgress then [Progress(k, n)] else [];
    var b: seq<Event> := if Reported(c, o) && cb.onMatchFound then [MatchFound(p)] else [];
    MarksAppend(a, b);
    MarksOfOne(a);
    MarksOfOne(b);
  }

  /** The calls of one client: at most a progress call, then a match call when the client is reported. */
  lemma StepCalls(cb: Callbacks, c: Client, o: Outcome, p: Person, k: nat, n: nat)
    ensures Found(StepEvents(cb, c, o, p, k, n)) == Pick(cb.onMatchFound, c, o, p)
    ensures Midway(StepEvents(cb, c, o, p, k, n), n)
  {
    var a: seq<Event> := if cb.onProgress then [Progress(k, n)] else [];
    var b: seq<Event> := if Reported(c, o) && cb.onMatchFound then [MatchFound(p)] else [];
    MarksAppend(a, b);
    MarksOfOne(a);
    MarksOfOne(b);
  }

  /** The screened clients' progress calls carry the indices `0 .. i - 1`, in order. */
  lemma {:induction false} LoopMarks(cb: Callbacks, cs: seq<Client>, os: seq<Outcome>, ps: seq<Person>, i: nat)
    requires |cs| == |os| == |ps| && i <= |cs|
    ensures Marks(LoopEvents(cb, cs, os, ps, i)) == Ticks(cb.onProgress, i)
  {
    if i > 0 {
      var before := LoopEvents(cb, cs, os, ps, i - 1);
      var step := StepEvents(cb, cs[i - 1], os[i - 1], ps[i - 1], i - 1, |cs|);
      LoopMarks(cb, cs, os, ps, i - 1);
      StepMarks(cb, cs[i - 1], os[i - 1], ps[i - 1], i - 1, |cs|);
      MarksStep(before, step, cb.onProgress, i);
    }
  }

  lemma MarksStep(before: seq<Event>, step: seq<Event>, progress: bool, i: nat)
    requires i > 0
    requires Marks(before) == Ticks(progress, i - 1)
    requires Marks(step) == Tick(progress, i - 1)
    ensures Marks(before + step) == Ticks(progress, i)
  {
    MarksAppend(before, step);
    if !progress {
      assert Marks(before) + Marks(step) == [];
    }
  }

  /** One match call per reported screened client. */
  lemma {:induction false} LoopFound(cb: Callbacks, cs: seq<Client>, os: seq<Outcome>, ps: seq<Person>, i: nat)
    requires |cs| == |os| == |ps| && i <= |cs|
    ensures Found(LoopEvents(cb, cs, os, ps, i)) == Picks(cb.onMatchFound, cs, os, ps, i)
  {
    if i > 0 {
      var before := LoopEvents(cb, cs, os, ps, i - 1);
      var step := StepEvents(cb, cs[i - 1], os[i - 1], ps[i - 1], i - 1, |cs|);
      LoopFound(cb, cs, os, ps, i - 1);
      StepCalls(cb, cs[i - 1], os[i - 1], ps[i - 1], i - 1, |cs|);
      FoundStep(before, step, cb.onMatchFound, cs, os, ps, i);
    }
  }

  lemma FoundStep(before: seq<Event>, step: seq<Event>, matchFound: bool, cs: seq<Client>, os: seq<Outcome>, ps: seq<Person>, i: nat)
    requires |cs| == |os| == |ps| && 0 < i <= |cs|
    requires Found(before) == Picks(matchFound, cs, os, ps, i - 1)
    requires Found(step) == Pick(matchFound, cs[i - 1], os[i - 1], ps[i - 1])
    ensures Found(before + step) == Picks(matchFound, cs, os, ps, i)
  {
    MarksAppend(before, step);
    if !matchFound {
      assert Found(before) + Found(step) == [];
    }
  }

  /** The screened clients' calls hold no completion call, and every progress call has the number of clients as total. */
  lemma {:induction false} LoopMidway(cb: Callbacks, cs: seq<Client>, os: seq<Outcome>, ps: seq<Person>, i: nat)
    requires |cs| == |os| == |ps| && i <= |cs|
    ensures Midway(LoopEvents(cb, cs, os, ps, i), |cs|)
  {
    if i > 0 {
      var before := LoopEvents(cb, cs, os, ps, i - 1);
      var step := StepEvents(cb, cs[i - 1], os[i - 1], ps[i - 1], i - 1, |cs|);
      LoopMidway(cb, cs, os, ps, i - 1);
      StepCalls(cb, cs[i - 1], os[i - 1], ps[i - 1], i - 1, |cs|);
      MidwayAppend(before, step, |cs|);
    }
  }

  lemma MidwayAppend(a: seq<Event>, b: seq<Event>, n: nat)
    requires Midway(a, n) && Midway(b, n)
    ensures Midway(a + b, n)
  {
    forall k | 0 <= k < |a + b| ensures !(a + b)[k].Complete? && ((a + b)[k].Progress? ==> (a + b)[k].total == n) {
      if k < |a| { assert (a + b)[k] == a[k]; } else { assert (a + b)[k] == b[k - |a|]; }
    }
  }

  /** What follows the screened clients' calls in a run that stops at `stop`. */
  function RunTail(cb: Callbacks, stop: nat, n: nat, count: nat): seq<Event> {
    (if cb.onProgress then [Progress(stop, n)] else [])
    + (if stop < n || !cb.onComplete then [] else [Complete(count, n)])
  }

  lemma RunSplit(cb: Callbacks, hasIds: bool, cs: seq<Client>, os: seq<Outcome>, ps: seq<Person>)
    requires |cs| == |os| == |ps|
    ensures StopAt(hasIds, os) <= |cs|
    ensures RunEvents(cb, hasIds, cs, os, ps)
            == LoopEvents(cb, cs, os, ps, StopAt(hasIds, os)) + RunTail(cb, StopAt(hasIds, os), |cs|, ReportedCount(cs, os, |cs|))
  {
  }

  /** The tail holds the progress call of client `stop` and no match call. */
  lemma TailMarks(cb: Callbacks, stop: nat, n: nat, count: nat)
    ensures Marks(RunTail(cb, stop, n, count)) == Tick(cb.onProgress, stop)
    ensures Found(RunTail(cb, stop, n, count)) == []
  {
    var a: seq<Event> := if cb.onProgress then [Progress(stop, n)] else [];
    var b: seq<Event> := if stop < n || !cb.onComplete then [] else [Complete(count, n)];
    MarksAppend(a, b);
    MarksOfOne(a);
    MarksOfOne(b);
  }

  /** Only the last call of the tail can be the completion call, and it is one exactly when every client was screened. */
  lemma TailShape(cb: Callbacks, stop: nat, n: nat, count: nat)
    ensures var t := RunTail(cb, stop, n, count);
            && (forall k :: 0 <= k < |t| - 1 ==> !t[k].Complete?)
            && (forall k :: 0 <= k < |t| && t[k].Progress? ==> t[k].total == n)
            && (t != [] && t[|t| - 1].Complete? <==> stop >= n && cb.onComplete)
            && (stop >= n && cb.onComplete ==> t[|t| - 1] == Complete(count, n))
  {
  }

  /**
   * `on_progress` is called with `0, 1, ..., stop` in order, each time with the
   * number of clients as total, where `stop` is the number of clients when no
   * lookup raised and the index of the client whose lookup raised otherwise.
   */
  lemma RunProgress(cb: Callbacks, hasIds: bool, cs: seq<Client>, os: seq<Outcome>, ps: seq<Person>)
    requires |cs| == |os| == |ps|
    ensures var marks := Marks(RunEvents(cb, hasIds, cs, os, ps));
            && (cb.onProgress ==> |marks| == StopAt(hasIds, os) + 1 && forall k :: 0 <= k < |marks| ==> marks[k] == k)
            && (!cb.onProgress ==> marks == [])
  {
    var stop := StopAt(hasIds, os);
    RunSplit(cb, hasIds, cs, os, ps);
    LoopMarks(cb, cs, os, ps, stop);
    TailMarks(cb, stop, |cs|, ReportedCount(cs, os, |cs|));
    MarksStep(LoopEvents(cb, cs, os, ps, stop), RunTail(cb, stop, |cs|, ReportedCount(cs, os, |cs|)), cb.onProgress, stop + 1);
    TicksCount(cb.onProgress, stop + 1);
  }

  /**
   * Every progress call carries the number of clients as total, and `on_complete`
   * is called at most once, and only as the last call: exactly when every client
   * was screened and the callback was supplied, with the number of reported
   * clients and the number of clients.
   */
  lemma RunCompletion(cb: Callbacks, hasIds: bool, cs: seq<Client>, os: seq<Outcome>, ps: seq<Person>)
    requires |cs| == |os| == |ps|
    ensures var es := RunEvents(cb, hasIds, cs, os, ps);
            && (forall k :: 0 <= k < |es| && es[k].Progress? ==> es[k].total == |cs|)
            && (forall k :: 0 <= k < |es| - 1 ==> !es[k].Complete?)
            && (es != [] && es[|es| - 1].Complete? <==> StopAt(hasIds, os) == |cs| && cb.onComplete)
            && (StopAt(hasIds, os) == |cs| && cb.onComplete ==>
                  es[|es| - 1] == Complete(ReportedCount(cs, os, |cs|), |cs|))
  {
    var n, stop := |cs|, StopAt(hasIds, os);
    var loop := LoopEvents(cb, cs, os, ps, stop);
    var tail := RunTail(cb, stop, n, ReportedCount(cs, os, n));
    RunSplit(cb, hasIds, cs, os, ps);
    LoopMidway(cb, cs, os, ps, stop);
    TailShape(cb, stop, n, ReportedCount(cs, os, n));
    ConcatCalls(loop, tail, n);
  }

  /** Calls that are all midway, followed by a tail of the `RunTail` shape. */
  lemma ConcatCalls(loop: seq<Event>, tail: seq<Event>, n: nat)
    requires Midway(loop, n)
    requires forall k :: 0 <= k < |tail| - 1 ==> !tail[k].Complete?
    requires forall k :: 0 <= k < |tail| && tail[k].Progress? ==> tail[k].total == n
    ensures var es := loop + tail;
            && (forall k :: 0 <= k < |es| && es[k].Progress? ==> es[k].total == n)
            && (forall k :: 0 <= k < |es| - 1 ==> !es[k].Complete?)
            && (es != [] && es[|es| - 1].Complete? <==> tail != [] && tail[|tail| - 1].Complete?)
            && (tail != [] ==> es[|es| - 1] == tail[|tail| - 1])
  {
    var es := loop + tail;
    forall k | 0 <= k < |es| ensures es[k] == if k < |loop| then loop[k] else tail[k - |loop|] {
    }
  }

  /**
   * `on_match_found` is called once per reported client, in roster order, with
   * that client's person; so the number of calls is at most the number of clients.
   */
  lemma RunMatches(cb: Callbacks, hasIds: bool, cs: seq<Client>, os: seq<Outcome>, ps: seq<Person>)
    requires |cs| == |os| == |ps|
    ensures Found(RunEvents(cb, hasIds, cs, os, ps)) == Picks(cb.onMatchFound, cs, os, ps, StopAt(hasIds, os))
    ensures |Found(RunEvents(cb, hasIds, cs, os, ps))| == if cb.onMatchFound then ReportedCount(cs, os, StopAt(hasIds, os)) else 0
    ensures |Found(RunEvents(cb, hasIds, cs, os, ps))| <= |cs|
  {
    var stop := StopAt(hasIds, os);
    var loop, tail := LoopEvents(cb, cs, os, ps, stop), RunTail(cb, stop, |cs|, ReportedCount(cs, os, |cs|));
    RunSplit(cb, hasIds, cs, os, ps);
    LoopFound(cb, cs, os, ps, stop);
    TailMarks(cb, stop, |cs|, ReportedCount(cs, os, |cs|));
    MarksAppend(loop, tail);
    assert Found(loop) + Found(tail) == Found(loop);
    PicksReported(cb.onMatchFound, cs, os, ps, stop);
  }

  /** With counters that start non-negative, the reported clients are exactly those whose search hit. */
  lemma {:induction false} ReportedAreHits(cs: seq<Client>, os: seq<Outcome>, i: nat)
    requires |cs| == |os| && i <= |cs|
    requires forall k :: 0 <= k < |cs| ==> cs[k].count >= 0
    ensures ReportedCount(cs, os, i) == HitCount(os, i)
  {
    if i > 0 {
      ReportedAreHits(cs, os, i - 1);
    }
  }

  // ---------------------------------------------------------------------------
  // The thread bodies
  // ---------------------------------------------------------------------------

  /** The alias list of `table`: the rows whose entity is among `ids`, each appended in turn. */
  method CollectNames(table: NameTable, ids: set<Option<string>>) returns (names: NameList)
    ensures fresh(names)
    ensures names.items == NamesOfEntities(table.rows, ids)
  {
    names := new NameList([]);
    var rows := table.rows;
    for j := 0 to |rows|
      invariant names.items == NamesOfEntities(rows[..j], ids)
    {
      assert rows[..j + 1][..j] == rows[..j];
      if rows[j].entityId in ids {
        names.Append(rows[j].wholeName);
      }
    }
    assert rows[..|rows|] == rows;
  }

  /** `find_person_by_name` for a client, seen through what the loop uses of its result. */
  method Search(lib: Foreign, t: AliasTable, table: NameTable, person: Person) returns (filtered: seq<Alias>)
    requires table.rows == t.rows
    modifies table
    ensures multiset(filtered) == multiset(Matches(lib, t, Client(person.name, person.surname, person.count)))
  {
    filtered := table.FindPersonByName(lib, person.name, person.surname);
  }

  /**
   * One turn of the loop of `process_thread()` after the progress call: search
   * for the client; on a hit, count it and, unless the alias table has no entity
   * id column (`KeyError`), replace its list of matching names. `raised` says
   * that the lookup of the entity ids raised.
   */
  method ScreenOne(lib: Foreign, t: AliasTable, table: NameTable, person: Person, ghost outcome: Client -> Outcome)
    returns (hit: bool, raised: bool)
    requires table.columns == t.columns && table.rows == t.rows
    requires Faithful(lib, t, outcome)
    modifies table, person
    ensures var o := outcome(Client(old(person.name), old(person.surname), old(person.count)));
            && hit == o.hit
            && (raised <==> hit && LogicalId !in t.columns)
            && person.count == old(person.count) + (if hit then 1 else 0)
            && (hit && !raised ==> fresh(person.matchingNames) && person.matchingNames.items == o.names)
            && (!(hit && !raised) ==> person.matchingNames == old(person.matchingNames))
    ensures person.name == old(person.name) && person.surname == old(person.surname)
  {
    ghost var c := Client(person.name, person.surname, person.count);
    ghost var m := Matches(lib, t, c);
    assert outcome(c) == OutcomeOf(lib, t, c) == Outcome(m != [], NamesOfEntities(t.rows, EntityIds(m)));
    var filtered := Search(lib, t, table, person);
    SameIds(filtered, m);
    hit := filtered != [];
    raised := false;
    if hit {
      person.count := person.count + 1;
      if LogicalId !in table.columns {
        raised := true;
        return;
      }
      var ids := EntityIds(filtered);
      var names := CollectNames(table, ids);
      person.matchingNames := names;
    }
  }

  /**
   * One turn of the loop of `process_thread()` for the client with index `i` of
   * `n`: the progress call, the search and, when the client is reported, the
   * match call.
   */
  method Turn(lib: Foreign, t: AliasTable, table: NameTable, person: Person, cb: Callbacks,
              i: nat, n: nat, ghost outcome: Client -> Outcome)
    returns (step: seq<Event>, reported: bool, raised: bool)
    requires table.columns == t.columns && table.rows == t.rows
    requires Faithful(lib, t, outcome)
    modifies table, person
    ensures var c := Client(old(person.name), old(person.surname), old(person.count));
            var o := outcome(c);
            && (raised <==> o.hit && LogicalId !in t.columns)
            && (raised ==> step == if cb.onProgress then [Progress(i, n)] else [])
            && (!raised ==> step == StepEvents(cb, c, o, person, i, n) && reported == Reported(c, o))
            && person.count == old(person.count) + (if o.hit then 1 else 0)
            && (o.hit && !raised ==> fresh(person.matchingNames) && person.matchingNames.items == o.names)
            && (!(o.hit && !raised) ==> person.matchingNames == old(person.matchingNames))
    ensures person.name == old(person.name) && person.surname == old(person.surname)
  {
    step := if cb.onProgress then [Progress(i, n)] else [];
    var hit;
    hit, raised := ScreenOne(lib, t, table, person, outcome);
    reported := false;
    if !raised && hit && person.count > 0 {
      if cb.onMatchFound {
        step := step + [MatchFound(person)];
      }
      reported := true;
    }
  }

  /**
   * What the loop of `process_thread()` has done to the persons: each client
   * before `counted` with a hit is counted, each client before `listed` with a
   * hit holds a new list of its matching names, and nothing else has changed
   * from the clients `cs` and the lists `lists` the loop started with.
   */
  ghost predicate Screened(people: seq<Person>, cs: seq<Client>, os: seq<Outcome>, lists: seq<NameList>,
                           counted: nat, listed: nat)
    reads *
    requires |cs| == |people| && |os| == |cs| && |lists| == |cs|
  {
    forall k :: 0 <= k < |people| ==>
      && people[k].name == cs[k].name && people[k].surname == cs[k].surname
      && people[k].count == cs[k].count + (if k < counted && os[k].hit then 1 else 0)
      && if k < listed && os[k].hit
         then people[k].matchingNames !in lists && people[k].matchingNames.items == os[k].names
         else people[k].matchingNames == lists[k]
  }

  /**
   * What a whole run has done to the persons: every client up to and including
   * the one whose lookup raised, or every client when none did, is counted, and
   * every client before that one holds its new list.
   */
  ghost predicate ScreenedRun(people: seq<Person>, cs: seq<Client>, os: seq<Outcome>, lists: seq<NameList>, hasIds: bool)
    reads *
    requires |cs| == |people| && |os| == |cs| && |lists| == |cs|
  {
    var stop := StopAt(hasIds, os);
    Screened(people, cs, os, lists, if stop < |cs| then stop + 1 else stop, stop)
  }

  /**
   * The loop of `process_thread()` before client `i`: the events and the count of
   * reports of the clients before it, and what it has done to the persons.
   */
  ghost predicate Screening(cb: Callbacks, people: seq<Person>, cs: seq<Client>, os: seq<Outcome>, lists: seq<NameList>,
                            i: nat, events: seq<Event>, matchCount: nat)
    reads *
  {
    && |cs| == |people| && |os| == |cs| && |lists| == |cs| && i <= |cs|
    && events == LoopEvents(cb, cs, os, people, i)
    && matchCount == ReportedCount(cs, os, i)
    && Screened(people, cs, os, lists, i, i)
  }

  /**
   * The loop of `process_thread()` after the lookup for client `i` raised: the
   * events of the clients before it and its progress call, with client `i`
   * counted but given no new list.
   */
  ghost predicate Stopped(cb: Callbacks, people: seq<Person>, cs: seq<Client>, os: seq<Outcome>, lists: seq<NameList>,
                          i: nat, events: seq<Event>)
    reads *
  {
    && |cs| == |people| && |os| == |cs| && |lists| == |cs| && i < |cs|
    && events == LoopEvents(cb, cs, os, people, i) + (if cb.onProgress then [Progress(i, |cs|)] else [])
    && Screened(people, cs, os, lists, i + 1, i)
  }

  /** Before the loop nothing has changed: the persons are the clients `cs` holding the lists `lists`. */
  lemma ScreeningAtStart(cb: Callbacks, people: seq<Person>, cs: seq<Client>, os: seq<Outcome>, lists: seq<NameList>)
    requires |cs| == |people| && |os| == |cs| && |lists| == |cs|
    requires forall k :: 0 <= k < |people| ==>
               cs[k] == Client(people[k].name, people[k].surname, people[k].count) && lists[k] == people[k].matchingNames
    ensures Screening(cb, people, cs, os, lists, 0, [], 0)
  {
  }

  /** A loop stopped at client `i` where the run stops has made all the calls of the run. */
  lemma StoppedRun(cb: Callbacks, hasIds: bool, people: seq<Person>, cs: seq<Client>, os: seq<Outcome>,
                   lists: seq<NameList>, i: nat, events: seq<Event>)
    requires Stopped(cb, people, cs, os, lists, i, events) && StopAt(hasIds, os) == i
    ensures events == RunEvents(cb, hasIds, cs, os, people)
    ensures ScreenedRun(people, cs, os, lists, hasIds)
  {
  }

  /** A loop that has screened every client: every client counted and given its list. */
  lemma FinishedRun(cb: Callbacks, hasIds: bool, people: seq<Person>, cs: seq<Client>, os: seq<Outcome>,
                    lists: seq<NameList>, events: seq<Event>, matchCount: nat)
    requires Screening(cb, people, cs, os, lists, |people|, events, matchCount)
    requires |people| <= StopAt(hasIds, os)
    ensures |cs| == |os| == |people| && StopAt(hasIds, os) == |cs|
    ensures events == LoopEvents(cb, cs, os, people, |cs|) && matchCount == ReportedCount(cs, os, |cs|)
    ensures ScreenedRun(people, cs, os, lists, hasIds)
  {
  }

  /** One turn of the loop, as it changes the events, the count of reports and the persons. */
  method Step(lib: Foreign, t: AliasTable, table: NameTable, people: seq<Person>, cb: Callbacks, i: nat,
              ghost outcome: Client -> Outcome, ghost cs: seq<Client>, ghost os: seq<Outcome>, ghost lists: seq<NameList>,
              events0: seq<Event>, matchCount0: nat)
    returns (events: seq<Event>, matchCount: nat, raised: bool)
    requires table.columns == t.columns && table.rows == t.rows
    requires Faithful(lib, t, outcome)
    requires Screening(cb, people, cs, os, lists, i, events0, matchCount0) && i < |people|
    requires os[i] == outcome(cs[i])
    requires forall k :: 0 <= k < |people| && k != i ==> people[k] != people[i]
    modifies table, people[i]
    ensures table.columns == t.columns && table.rows == t.rows
    ensures raised <==> os[i].hit && LogicalId !in t.columns
    ensures raised ==> Stopped(cb, people, cs, os, lists, i, events)
    ensures !raised ==> Screening(cb, people, cs, os, lists, i + 1, events, matchCount)
  {
    var person := people[i];
    assert cs[i] == Client(person.name, person.surname, person.count);
    var step, reported, raised' := Turn(lib, t, table, person, cb, i, |people|, outcome);
    raised := raised';
    events := events0 + step;
    matchCount := matchCount0 + if reported then 1 else 0;
    ghost var j := if raised then i else i + 1;
    forall k | 0 <= k < |people|
      ensures && people[k].name == cs[k].name && people[k].surname == cs[k].surname
              && people[k].count == cs[k].count + (if k < i + 1 && os[k].hit then 1 else 0)
              && if k < j && os[k].hit
                 then people[k].matchingNames !in lists && people[k].matchingNames.items == os[k].names
                 else people[k].matchingNames == lists[k]
    {
      if k == i {
        if os[i].hit && !raised {
          assert person.matchingNames !in lists;
        }
      } else {
        assert people[k] != person;
        assert old(people[k].matchingNames.items) == people[k].matchingNames.items;
      }
    }
    assert Screened(people, cs, os, lists, i + 1, j);
  }

  /** The calls after the loop of `process_thread()`: the final progress call and the completion call. */
  method Finish(cb: Callbacks, ghost hasIds: bool, events0: seq<Event>, matchCount: nat,
                ghost cs: seq<Client>, ghost os: seq<Outcome>, ps: seq<Person>)
    returns (events: seq<Event>)
    requires |cs| == |os| == |ps| && StopAt(hasIds, os) == |cs|
    requires events0 == LoopEvents(cb, cs, os, ps, |cs|) && matchCount == ReportedCount(cs, os, |cs|)
    ensures events == RunEvents(cb, hasIds, cs, os, ps)
  {
    var n := |ps|;
    events := events0;
    if cb.onProgress {
      events := events + [Progress(n, n)];
    }
    if cb.onComplete {
      events := events + [Complete(matchCount, n)];
    }
    RunEventsFinished(cb, hasIds, cs, os, ps);
  }

  /** The loop of `process_thread()` and its final callbacks, over the alias table `t`. */
  method Screen(lib: Foreign, t: AliasTable, people: seq<Person>, cb: Callbacks,
                ghost outcome: Client -> Outcome, ghost cs: seq<Client>, ghost os: seq<Outcome>, ghost lists: seq<NameList>)
    returns (events: seq<Event>)
    requires Faithful(lib, t, outcome)
    requires |cs| == |people| && |os| == |cs| && |lists| == |cs|
    requires forall k :: 0 <= k < |cs| ==> os[k] == outcome(cs[k])
    requires forall k :: 0 <= k < |people| ==>
               cs[k] == Client(people[k].name, people[k].surname, people[k].count) && lists[k] == people[k].matchingNames
    requires forall j, k :: 0 <= j < k < |people| ==> people[j] != people[k]
    modifies people
    ensures events == RunEvents(cb, LogicalId in t.columns, cs, os, people)
    ensures ScreenedRun(people, cs, os, lists, LogicalId in t.columns)
  {
    ghost var hasIds := LogicalId in t.columns;
    ghost var stop := StopAt(hasIds, os);
    var table := new NameTable(t);
    var n := |people|;
    var matchCount := 0;
    events := [];
    ScreeningAtStart(cb, people, cs, os, lists);
    for i := 0 to n
      invariant table.columns == t.columns && table.rows == t.rows
      invariant i <= stop
      invariant Screening(cb, people, cs, os, lists, i, events, matchCount)
    {
      var raised;
      events, matchCount, raised := Step(lib, t, table, people, cb, i, outcome, cs, os, lists, events, matchCount);
      if raised {
        // `filtered_names['Entity_LogicalId']` raised: the thread ends here.
        StopsHere(hasIds, os, i);
        StoppedRun(cb, hasIds, people, cs, os, lists, i, events);
        return;
      }
      BeforeStop(hasIds, os, i);
    }
    FinishedRun(cb, hasIds, people, cs, os, lists, events, matchCount);
    events := Finish(cb, hasIds, events, matchCount, cs, os, people);
  }

  /** The lists of matching names the persons hold. */
  function Lists(people: seq<Person>): (r: seq<NameList>)
    reads people
    ensures |r| == |people|
    ensures forall k :: 0 <= k < |people| ==> r[k] == people[k].matchingNames
  {
    if people == [] then [] else Lists(people[..|people| - 1]) + [people[|people| - 1].matchingNames]
  }

  /**
   * `process_thread()`, given what reading the sanctions file returned (`None`:
   * reading raised) and the clients. The clients are distinct objects, as the
   * importer builds them.
   */
  method ProcessThread(lib: Foreign, read: Option<RawTable>, people: seq<Person>, cb: Callbacks)
    returns (events: seq<Event>)
    requires forall j, k :: 0 <= j < k < |people| ==> people[j] != people[k]
    modifies people
    ensures ProcessSanctionsData(read).None? ==>
              && events == (if cb.onComplete then [Complete(0, 0)] else [])
              && unchanged(people)
    ensures ProcessSanctionsData(read).Some? ==>
              var t := ProcessSanctionsData(read).value;
              var cs := old(Snapshot(people));
              var os := Outcomes(OutcomeFn(lib, t), cs);
              && events == RunEvents(cb, LogicalId in t.columns, cs, os, people)
              && ScreenedRun(people, cs, os, old(Lists(people)), LogicalId in t.columns)
  {
    var data := ProcessSanctionsData(read);
    ghost var cs := Snapshot(people);
    ghost var lists := Lists(people);
    if data.None? {
      events := if cb.onComplete then [Complete(0, 0)] else [];
      return;
    }
    var t := data.value;
    ghost var outcome := OutcomeFn(lib, t);
    ghost var os := Outcomes(outcome, cs);
    events := Screen(lib, t, people, cb, outcome, cs, os, lists);
  }

  // ---------------------------------------------------------------------------
  // load_file_async
  // ---------------------------------------------------------------------------

  /** A call of the caller's `on_complete(people_data, message)`. */
  datatype LoadCall = LoadCall(people: Option<seq<Person>>, message: string)

  /**
   * The body of the loading thread: import the file, then hand the people (or
   * `None`) and the message to `on_complete` when one is given.  `read` is what
   * reading the file yields.
   */
  method LoadThread(filePath: string, read: Result<FileRepository.RosterTable, string>, onComplete: bool)
    returns (people: Option<seq<Person>>, message: string, calls: seq<LoadCall>)
    ensures calls == if onComplete then [LoadCall(people, message)] else []
    ensures people.Some? <==>
              && FileRepository.Supported(PyText.Lower(FileRepository.Extension(filePath)))
              && read.Success? && FileRepository.MissingColumns(read.value.columns) == []
    ensures var ext := PyText.Lower(FileRepository.Extension(filePath));
            !FileRepository.Supported(ext) ==> people == None && message == FileRepository.UnsupportedMessage(ext)
    ensures FileRepository.Supported(PyText.Lower(FileRepository.Extension(filePath))) && read.Failure? ==>
              people == None && message == FileRepository.ReadErrorMessage(read.error)
    ensures && FileRepository.Supported(PyText.Lower(FileRepository.Extension(filePath)))
            && read.Success? && FileRepository.MissingColumns(read.value.columns) != [] ==>
              people == None && message == FileRepository.MissingMessage(FileRepository.MissingColumns(read.value.columns))
    ensures && FileRepository.Supported(PyText.Lower(FileRepository.Extension(filePath)))
            && read.Success? && FileRepository.MissingColumns(read.value.columns) == [] ==>
              && var imported := FileRepository.Imported(FileRepository.RowOutcome(PersonInit), read.value.rows);
              && people.Some? && |people.value| == |imported|
              && (forall k :: 0 <= k < |imported| ==>
                    fresh(people.value[k]) && fresh(people.value[k].matchingNames)
                    && FileRepository.Built(people.value[k], imported[k]))
              && (forall j, k :: 0 <= j < k < |imported| ==> people.value[j] != people.value[k])
              && message == FileRepository.LoadedMessage(|imported|, FileRepository.Skipped(FileRepository.RowOutcome(PersonInit), read.value.rows))
  {
    people, message := FileRepository.LoadPeopleFromFile(filePath, read);
    calls := if onComplete then [LoadCall(people, message)] else [];
  }
}
