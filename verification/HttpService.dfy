/** Admission and accounting of HTTP requests, and the byte-limited response bodies whose end decides how a
    request is counted (src/http.rs). */
module HttpService {
  import opened Bytes
  import opened Wrappers

  // ---------------------------------------------------------------- admission

  /** Where a request is between `acquire_owned` and the release of its permit.  Dropping the completion first
      decrements `in_flight` and then releases the permit; completing counts first and then drops. */
  datatype Phase =
    | Waiting
    | Permitted
    | Counted
    | Completing
    | Leaving(completed: bool)
    | Ended(completed: bool)

  datatype Service = Service(maxInFlight: nat, permits: nat, inFlight: nat, completed: nat, requests: map<nat, Phase>)

  datatype Event =
    | Arrive(id: nat)
    | GiveUp(id: nat)
    | Acquire(id: nat)
    | CountIn(id: nat)
    | Complete(id: nat)
    | DropCompletion(id: nat)
    | ReleasePermit(id: nat)

  predicate Enabled(s: Service, e: Event)
  {
    match e
    case Arrive(id) => id !in s.requests
    case GiveUp(id) => id in s.requests && s.requests[id].Waiting?
    case Acquire(id) => id in s.requests && s.requests[id].Waiting? && s.permits > 0
    case CountIn(id) => id in s.requests && s.requests[id].Permitted?
    case Complete(id) => id in s.requests && s.requests[id].Counted?
    case DropCompletion(id) => id in s.requests && (s.requests[id].Counted? || s.requests[id].Completing?)
    case ReleasePermit(id) => id in s.requests && s.requests[id].Leaving?
  }

  /** `fetch_sub(1)` on `usize` wraps below zero. */
  function FetchSub(n: nat): (r: nat)
  {
    if n == 0 then USIZE_MAX else n - 1
  }

  function Do(s: Service, e: Event): (r: Service)
    requires Enabled(s, e)
  {
    match e
    case Arrive(id) => s.(requests := s.requests[id := Waiting])
    case GiveUp(id) => s.(requests := s.requests - {id})
    case Acquire(id) => s.(requests := s.requests[id := Permitted], permits := s.permits - 1)
    case CountIn(id) => s.(requests := s.requests[id := Counted], inFlight := s.inFlight + 1)
    case Complete(id) => s.(requests := s.requests[id := Completing], completed := s.completed + 1)
    case DropCompletion(id) =>
      s.(requests := s.requests[id := Leaving(s.requests[id].Completing?)], inFlight := FetchSub(s.inFlight))
    case ReleasePermit(id) =>
      s.(requests := s.requests[id := Ended(s.requests[id].completed)], permits := s.permits + 1)
  }

  predicate Holds(p: Phase)
  {
    p.Permitted? || p.Counted? || p.Completing? || p.Leaving?
  }

  predicate Flies(p: Phase)
  {
    p.Counted? || p.Completing?
  }

  predicate IsCompleted(p: Phase)
  {
    p.Completing? || p == Leaving(true) || p == Ended(true)
  }

  predicate IsAbandoned(p: Phase)
  {
    p == Leaving(false) || p == Ended(false)
  }

  function Where(requests: map<nat, Phase>, test: Phase -> bool): (ids: set<nat>)
  {
    set id | id in requests && test(requests[id])
  }

  /** Moving one request changes a count by what the move changes for that request. */
  lemma WhereMoves(requests: map<nat, Phase>, test: Phase -> bool, id: nat, p: Phase)
    ensures |Where(requests[id := p], test)| + (if id in requests && test(requests[id]) then 1 else 0) ==
            |Where(requests, test)| + (if test(p) then 1 else 0)
  {
    var before, after := Where(requests, test), Where(requests[id := p], test);
    assert after - {id} == before - {id};
    assert id in after <==> test(p);
    assert id in before <==> id in requests && test(requests[id]);
    assert |after| == |after - {id}| + (if id in after then 1 else 0);
    assert |before| == |before - {id}| + (if id in before then 1 else 0);
  }

  lemma WhereForgets(requests: map<nat, Phase>, test: Phase -> bool, id: nat)
    requires id in requests && !test(requests[id])
    ensures Where(requests - {id}, test) == Where(requests, test)
  {
  }

  /** The counters are exactly the numbers of requests in the corresponding phases. */
  ghost predicate Inv(s: Service)
  {
    && s.permits + |Where(s.requests, Holds)| == s.maxInFlight
    && s.inFlight == |Where(s.requests, Flies)|
    && s.completed == |Where(s.requests, IsCompleted)|
  }

  lemma Moved(s: Service, id: nat, p: Phase)
    ensures
      var r := s.requests[id := p]; var was := id in s.requests;
      && |Where(r, Holds)| + (if was && Holds(s.requests[id]) then 1 else 0) ==
         |Where(s.requests, Holds)| + (if Holds(p) then 1 else 0)
      && |Where(r, Flies)| + (if was && Flies(s.requests[id]) then 1 else 0) ==
         |Where(s.requests, Flies)| + (if Flies(p) then 1 else 0)
      && |Where(r, IsCompleted)| + (if was && IsCompleted(s.requests[id]) then 1 else 0) ==
         |Where(s.requests, IsCompleted)| + (if IsCompleted(p) then 1 else 0)
  {
    WhereMoves(s.requests, Holds, id, p);
    WhereMoves(s.requests, Flies, id, p);
    WhereMoves(s.requests, IsCompleted, id, p);
  }

  lemma InvStep(s: Service, e: Event)
    requires Inv(s) && Enabled(s, e)
    ensures Inv(Do(s, e))
  {
    match e
    case Arrive(id) => Moved(s, id, Waiting);
    case GiveUp(id) =>
      WhereForgets(s.requests, Holds, id);
      WhereForgets(s.requests, Flies, id);
      WhereForgets(s.requests, IsCompleted, id);
    case Acquire(id) => Moved(s, id, Permitted);
    case CountIn(id) => Moved(s, id, Counted);
    case Complete(id) => Moved(s, id, Completing);
    case DropCompletion(id) =>
      assert id in Where(s.requests, Flies);
      Moved(s, id, Leaving(s.requests[id].Completing?));
    case ReleasePermit(id) => Moved(s, id, Ended(s.requests[id].completed));
  }

  function Opened(maxInFlight: nat): (s: Service)
  {
    Service(maxInFlight, maxInFlight, 0, 0, map[])
  }

  ghost predicate Run(s: Service, events: seq<Event>, r: Service)
    decreases |events|
  {
    if events == [] then r == s else Enabled(s, events[0]) && Run(Do(s, events[0]), events[1..], r)
  }

  lemma {:induction false} RunKeepsInv(s: Service, events: seq<Event>, r: Service)
    requires Inv(s) && Run(s, events, r)
    ensures Inv(r) && r.maxInFlight == s.maxInFlight
    decreases |events|
  {
    if events != [] {
      InvStep(s, events[0]);
      RunKeepsInv(Do(s, events[0]), events[1..], r);
    }
  }

  lemma SubsetSize(a: set<nat>, b: set<nat>)
    requires a <= b
    ensures |a| <= |b|
  {
    assert |b| == |a| + |b - a| by { assert b == a + (b - a); }
  }

  /** In every interleaving `in_flight` counts live admitted requests, never exceeds the permits held, and those never
      exceed the configured maximum; the decrement never wraps. */
  lemma AdmissionBounds(maxInFlight: nat, events: seq<Event>, r: Service)
    requires Run(Opened(maxInFlight), events, r)
    ensures r.inFlight == |Where(r.requests, Flies)| <= |Where(r.requests, Holds)| <= maxInFlight
    ensures r.permits == maxInFlight - |Where(r.requests, Holds)|
  {
    RunKeepsInv(Opened(maxInFlight), events, r);
    SubsetSize(Where(r.requests, Flies), Where(r.requests, Holds));
  }

  /** How often an event happened. */
  function Occurrences(events: seq<Event>, e: Event): (n: nat)
  {
    if events == [] then 0 else (if events[0] == e then 1 else 0) + Occurrences(events[1..], e)
  }

  /** What the phase of a request says about its past. */
  predicate Ledger(s: Service, id: nat, counted: nat, completed: nat, dropped: nat, released: nat)
  {
    var p := if id in s.requests then s.requests[id] else Waiting;
    && counted == (if p.Waiting? || p.Permitted? then 0 else 1)
    && completed == (if IsCompleted(p) then 1 else 0)
    && dropped == (if p.Leaving? || p.Ended? then 1 else 0)
    && released == (if p.Ended? then 1 else 0)
  }

  lemma {:induction false} LedgerKept(s: Service, events: seq<Event>, r: Service, id: nat,
                                      counted: nat, completed: nat, dropped: nat, released: nat)
    requires Run(s, events, r) && Ledger(s, id, counted, completed, dropped, released)
    ensures Ledger(r, id, counted + Occurrences(events, CountIn(id)), completed + Occurrences(events, Complete(id)),
                   dropped + Occurrences(events, DropCompletion(id)), released + Occurrences(events, ReleasePermit(id)))
    decreases |events|
  {
    if events != [] {
      var e := events[0];
      LedgerKept(Do(s, e), events[1..], r, id,
                 counted + (if e == CountIn(id) then 1 else 0), completed + (if e == Complete(id) then 1 else 0),
                 dropped + (if e == DropCompletion(id) then 1 else 0),
                 released + (if e == ReleasePermit(id) then 1 else 0));
    }
  }

  /** Every admitted request that has ended was counted in once, dropped once, gave its permit back once, and was
      counted as completed once or not at all, as its ending says. */
  lemma EndsOnce(maxInFlight: nat, events: seq<Event>, r: Service, id: nat)
    requires Run(Opened(maxInFlight), events, r) && id in r.requests && r.requests[id].Ended?
    ensures Occurrences(events, CountIn(id)) == 1
    ensures Occurrences(events, DropCompletion(id)) == 1
    ensures Occurrences(events, ReleasePermit(id)) == 1
    ensures Occurrences(events, Complete(id)) == if r.requests[id].completed then 1 else 0
  {
    LedgerKept(Opened(maxInFlight), events, r, id, 0, 0, 0, 0);
  }

  predicate IsAdmitted(p: Phase)
  {
    !p.Waiting?
  }

  /** Admitted, and neither completed nor abandoned. */
  predicate IsUnderWay(p: Phase)
  {
    p.Permitted? || p.Counted?
  }

  lemma AdmittedPartition(requests: map<nat, Phase>)
    ensures var a, b, c := Where(requests, IsUnderWay), Where(requests, IsCompleted), Where(requests, IsAbandoned);
      Where(requests, IsAdmitted) == a + b + c && a !! b && (a + b) !! c
  {
  }

  lemma DisjointSizes(a: set<nat>, b: set<nat>, c: set<nat>)
    requires a !! b && (a + b) !! c
    ensures |a + b + c| == |a| + |b| + |c|
  {
    assert |a + b| == |a| + |b|;
  }

  /** How many permits were handed out. */
  function Admissions(events: seq<Event>): (n: nat)
  {
    if events == [] then 0 else (if events[0].Acquire? then 1 else 0) + Admissions(events[1..])
  }

  lemma AdmittedStep(s: Service, e: Event)
    requires Enabled(s, e)
    ensures |Where(Do(s, e).requests, IsAdmitted)| == |Where(s.requests, IsAdmitted)| + (if e.Acquire? then 1 else 0)
  {
    if e.GiveUp? {
      WhereForgets(s.requests, IsAdmitted, e.id);
    } else {
      WhereMoves(s.requests, IsAdmitted, e.id, Do(s, e).requests[e.id]);
    }
  }

  lemma {:induction false} AdmittedRun(s: Service, events: seq<Event>, r: Service)
    requires Run(s, events, r)
    ensures |Where(r.requests, IsAdmitted)| == |Where(s.requests, IsAdmitted)| + Admissions(events)
    decreases |events|
  {
    if events != [] {
      AdmittedStep(s, events[0]);
      AdmittedRun(Do(s, events[0]), events[1..], r);
    }
  }

  /** Nothing is lost between the counters: over every run, the permits handed out are the requests still in flight, the
      completed ones the service counted, and the abandoned ones. */
  lemma AdmissionConserved(maxInFlight: nat, events: seq<Event>, r: Service)
    requires Run(Opened(maxInFlight), events, r)
    ensures r.completed == |Where(r.requests, IsCompleted)|
    ensures |Where(r.requests, IsAdmitted)| ==
      |Where(r.requests, IsUnderWay)| + r.completed + |Where(r.requests, IsAbandoned)|
    ensures Admissions(events) == |Where(r.requests, IsUnderWay)| + r.completed + |Where(r.requests, IsAbandoned)|
  {
    AdmittedRun(Opened(maxInFlight), events, r);
    RunKeepsInv(Opened(maxInFlight), events, r);
    AdmittedPartition(r.requests);
    DisjointSizes(Where(r.requests, IsUnderWay), Where(r.requests, IsCompleted), Where(r.requests, IsAbandoned));
  }

  // ---------------------------------------------------------------- byte-limited bodies

  /** What the inner body yields when polled. */
  datatype Polled = Pending | DataFrame(data: Bytes) | Trailers | Failed | End

  /** What the caller sees. */
  datatype Seen = Nothing | Frame(data: Bytes) | FrameTrailers | LimitError | BodyError | EndOfBody

  datatype Outcome = Held | CompletedOnce | Dropped

  datatype Body = Body(remaining: nat, completion: Outcome)

  function Poll(b: Body, p: Polled): (r: (Body, Seen))
  {
    match p
    case Pending => (b, Nothing)
    case DataFrame(data) =>
      if |data| > b.remaining then (Body(0, if b.completion.Held? then Dropped else b.completion), LimitError)
      else (b.(remaining := b.remaining - |data|), Frame(data))
    case Trailers => (b, FrameTrailers)
    case Failed => (b.(completion := if b.completion.Held? then Dropped else b.completion), BodyError)
    case End => (b.(completion := if b.completion.Held? then CompletedOnce else b.completion), EndOfBody)
  }

  /** `LimitBody`: the same limit without a completion to account for. */
  class LimitBody {
    var remaining: nat

    constructor (limit: nat)
      ensures remaining == limit
    {
      remaining := limit;
    }

    method PollFrame(p: Polled) returns (seen: Seen)
      modifies this
      ensures (Body(remaining, Dropped), seen) == Poll(Body(old(remaining), Dropped), p)
    {
      match p
      case Pending => seen := Nothing;
      case DataFrame(data) =>
        if |data| > remaining {
          remaining := 0;
          seen := LimitError;
        } else {
          remaining := remaining - |data|;
          seen := Frame(data);
        }
      case Trailers => seen := FrameTrailers;
      case Failed => seen := BodyError;
      case End => seen := EndOfBody;
    }
  }

  /** `StreamingHttpBody`; a body that has already ended when it is handed over completes its request at once. */
  class StreamingBody {
    var remaining: nat
    var completion: Option<nat>
    var outcome: Outcome

    ghost predicate Valid()
      reads this
    {
      completion.Some? <==> outcome.Held?
    }

    constructor (limit: nat, request: nat, endedAlready: bool)
      ensures Valid() && remaining == limit && outcome == if endedAlready then CompletedOnce else Held
    {
      remaining := limit;
      completion := if endedAlready then None else Some(request);
      outcome := if endedAlready then CompletedOnce else Held;
    }

    method PollFrame(p: Polled) returns (seen: Seen)
      requires Valid()
      modifies this
      ensures Valid() && (Body(remaining, outcome), seen) == Poll(old(Body(remaining, outcome)), p)
    {
      match p
      case Pending => seen := Nothing;
      case DataFrame(data) =>
        if |data| > remaining {
          remaining := 0;
          if completion.Some? { completion, outcome := None, Dropped; }
          return LimitError;
        }
        remaining := remaining - |data|;
        seen := Frame(data);
      case Trailers => seen := FrameTrailers;
      case Failed =>
        if completion.Some? { completion, outcome := None, Dropped; }
        seen := BodyError;
      case End =>
        if completion.Some? { completion, outcome := None, CompletedOnce; }
        seen := EndOfBody;
    }
  }

  /** A body as it is handed over. */
  function Start(limit: nat, ended: bool): (b: Body)
  {
    Body(limit, if ended then CompletedOnce else Held)
  }

  function PollAll(b: Body, polls: seq<Polled>): (r: Body)
  {
    if polls == [] then b else Poll(PollAll(b, polls[..|polls| - 1]), polls[|polls| - 1]).0
  }

  /** The bytes that reached the caller. */
  function Passed(b: Body, polls: seq<Polled>): (bytes: Bytes)
  {
    if polls == [] then []
    else
      var seen := Poll(PollAll(b, polls[..|polls| - 1]), polls[|polls| - 1]).1;
      Passed(b, polls[..|polls| - 1]) + (if seen.Frame? then seen.data else [])
  }

  /** The bytes the inner body produced. */
  function Produced(polls: seq<Polled>): (b: Bytes)
  {
    if polls == [] then []
    else Produced(polls[..|polls| - 1]) + (if polls[|polls| - 1].DataFrame? then polls[|polls| - 1].data else [])
  }

  /** The body ended cleanly at `i`: nothing before it failed or exceeded the limit. */
  ghost predicate CleanEnd(limit: nat, polls: seq<Polled>, i: nat)
  {
    && i < |polls| && polls[i].End?
    && (forall k :: 0 <= k < i ==> !polls[k].Failed? && !polls[k].End?)
    && |Produced(polls[..i])| <= limit
  }

  ghost predicate EndsCleanly(limit: nat, ended: bool, polls: seq<Polled>)
  {
    ended || exists i :: CleanEnd(limit, polls, i)
  }

  /** The body has neither failed nor ended. */
  predicate Undisturbed(polls: seq<Polled>)
  {
    forall k :: 0 <= k < |polls| ==> !polls[k].Failed? && !polls[k].End?
  }

  ghost predicate StreamInv(limit: nat, ended: bool, polls: seq<Polled>)
  {
    var b, passed := PollAll(Start(limit, ended), polls), Passed(Start(limit, ended), polls);
    && (b.completion.Held? <==> !ended && Undisturbed(polls) && |Produced(polls)| <= limit)
    && (b.completion.Held? ==> passed == Produced(polls) && b.remaining == limit - |Produced(polls)|)
    && (b.completion.CompletedOnce? <==> EndsCleanly(limit, ended, polls))
  }

  lemma CleanEndExtends(limit: nat, polls: seq<Polled>)
    requires polls != []
    ensures var init := polls[..|polls| - 1];
      forall i: nat :: i < |init| ==> (CleanEnd(limit, polls, i) <==> CleanEnd(limit, init, i))
  {
    var init := polls[..|polls| - 1];
    forall i: nat | i < |init| ensures CleanEnd(limit, polls, i) <==> CleanEnd(limit, init, i) {
      assert polls[..i] == init[..i];
    }
  }

  /** The last poll ends the body cleanly, or an earlier one did. */
  lemma EndsCleanlyStep(limit: nat, ended: bool, polls: seq<Polled>)
    requires polls != []
    ensures var init, p := polls[..|polls| - 1], polls[|polls| - 1];
      EndsCleanly(limit, ended, polls) <==>
        EndsCleanly(limit, ended, init) || (p.End? && Undisturbed(init) && |Produced(init)| <= limit)
  {
    var init, last := polls[..|polls| - 1], |polls| - 1;
    CleanEndExtends(limit, polls);
    assert CleanEnd(limit, polls, last) <==> polls[last].End? && Undisturbed(init) && |Produced(init)| <= limit;
    if exists i :: CleanEnd(limit, init, i) {
      var i: nat :| CleanEnd(limit, init, i);
      assert CleanEnd(limit, polls, i);
    }
  }

  lemma StreamInvStep(limit: nat, ended: bool, polls: seq<Polled>)
    requires polls != [] && StreamInv(limit, ended, polls[..|polls| - 1])
    ensures StreamInv(limit, ended, polls)
  {
    var init, p := polls[..|polls| - 1], polls[|polls| - 1];
    EndsCleanlyStep(limit, ended, polls);
    assert Undisturbed(polls) <==> Undisturbed(init) && !p.Failed? && !p.End?;
  }

  lemma {:induction false} StreamInvHolds(limit: nat, ended: bool, polls: seq<Polled>)
    ensures StreamInv(limit, ended, polls)
  {
    if polls != [] {
      StreamInvHolds(limit, ended, polls[..|polls| - 1]);
      StreamInvStep(limit, ended, polls);
    }
  }

  /** However a limited body is polled, what passes and what is still allowed never exceed the limit. */
  lemma {:induction false} PassedWithinLimit(b: Body, polls: seq<Polled>)
    ensures |Passed(b, polls)| + PollAll(b, polls).remaining <= b.remaining
  {
    if polls != [] { PassedWithinLimit(b, polls[..|polls| - 1]); }
  }

  /** However the inner body is polled, the request counts as completed exactly when the body ended, at once or later,
      with no earlier error or overflow. */
  lemma StreamExact(limit: nat, ended: bool, polls: seq<Polled>)
    ensures PollAll(Start(limit, ended), polls).completion.CompletedOnce? <==> EndsCleanly(limit, ended, polls)
  {
    StreamInvHolds(limit, ended, polls);
  }

  /** A response that counts as completed was passed on whole. */
  lemma CompletedIsWhole(limit: nat, polls: seq<Polled>, i: nat)
    requires CleanEnd(limit, polls, i)
    ensures Passed(Start(limit, false), polls[..i]) == Produced(polls[..i])
  {
    StreamInvHolds(limit, false, polls[..i]);
    assert forall k :: 0 <= k < i ==> polls[..i][k] == polls[k];
  }

  /** The room left is the limit less what was produced, and none once that was too much. */
  lemma {:induction false} RoomLeft(limit: nat, ended: bool, polls: seq<Polled>)
    ensures var n := |Produced(polls)|;
      PollAll(Start(limit, ended), polls).remaining == if n > limit then 0 else limit - n
    ensures Passed(Start(limit, ended), polls) <= Produced(polls)
    ensures |Produced(polls)| <= limit ==> Passed(Start(limit, ended), polls) == Produced(polls)
  {
    if polls != [] { RoomLeft(limit, ended, polls[..|polls| - 1]); }
  }

  /** What every poll of every limited body shows: data in full as long as all data so far fits the limit, and otherwise
      an error; an end only when the inner body ended, and an error when it failed. */
  lemma EveryPollShows(limit: nat, ended: bool, polls: seq<Polled>, p: Polled, data: Bytes)
    ensures var seen := Poll(PollAll(Start(limit, ended), polls), p).1;
      && (seen == Frame(data) <==> p == DataFrame(data) && (|Produced(polls)| + |data| <= limit || data == []))
      && (seen == LimitError <==> p.DataFrame? && p.data != [] && |Produced(polls)| + |p.data| > limit)
      && (seen == BodyError <==> p.Failed?)
      && (seen == EndOfBody <==> p.End?)
      && (seen == FrameTrailers <==> p.Trailers?)
      && (seen == Nothing <==> p.Pending?)
  {
    RoomLeft(limit, ended, polls);
  }

  // ---------------------------------------------------------------- what a streamed body does to the counters

  /** A completion that is completed counts and is then dropped; one that is only dropped does not count. */
  function Ending(id: nat, completed: bool): (events: seq<Event>)
  {
    (if completed then [Complete(id)] else []) + [DropCompletion(id), ReleasePermit(id)]
  }

  /** What a change of the body's completion does. */
  function Effect(before: Body, after: Body, id: nat): (events: seq<Event>)
  {
    if before.completion.Held? && !after.completion.Held? then Ending(id, after.completion.CompletedOnce?) else []
  }

  /** Handing the body over, and every poll of it. */
  function Effects(limit: nat, ended: bool, polls: seq<Polled>, id: nat): (events: seq<Event>)
  {
    if polls == [] then Effect(Body(limit, Held), Start(limit, ended), id)
    else
      var init := polls[..|polls| - 1];
      Effects(limit, ended, init, id) +
      Effect(PollAll(Start(limit, ended), init), PollAll(Start(limit, ended), polls), id)
  }

  /** All of that, and dropping the body at the end. */
  function Lifetime(limit: nat, ended: bool, polls: seq<Polled>, id: nat): (events: seq<Event>)
  {
    Effects(limit, ended, polls, id) +
    (if PollAll(Start(limit, ended), polls).completion.Held? then Ending(id, false) else [])
  }

  lemma {:induction false} EffectsOnce(limit: nat, ended: bool, polls: seq<Polled>, id: nat)
    ensures var b := PollAll(Start(limit, ended), polls);
      Effects(limit, ended, polls, id) == if b.completion.Held? then [] else Ending(id, b.completion.CompletedOnce?)
  {
    if polls != [] { EffectsOnce(limit, ended, polls[..|polls| - 1], id); }
  }

  lemma EndingRuns(s: Service, id: nat, completed: bool) returns (r: Service)
    requires id in s.requests && s.requests[id].Counted?
    ensures Run(s, Ending(id, completed), r) && id in r.requests && r.requests[id] == Ended(completed)
  {
    var t := if completed then Do(s, Complete(id)) else s;
    var u := Do(t, DropCompletion(id));
    r := Do(u, ReleasePermit(id));
    assert Run(r, [], r);
    assert [ReleasePermit(id)][1..] == [];
    assert Run(u, [ReleasePermit(id)], r);
    var two := [DropCompletion(id), ReleasePermit(id)];
    assert two[1..] == [ReleasePermit(id)];
    assert Run(t, two, r);
    if completed {
      assert ([Complete(id)] + two)[1..] == two;
    } else {
      assert [] + two == two;
    }
  }

  /** However long it lives and however it is polled, a streamed body ends its request exactly once: as completed if its
      inner body ended cleanly, and as abandoned otherwise. */
  lemma LifetimeEndsRequest(limit: nat, ended: bool, polls: seq<Polled>, id: nat, s: Service) returns (r: Service)
    requires id in s.requests && s.requests[id].Counted?
    ensures Run(s, Lifetime(limit, ended, polls, id), r)
    ensures id in r.requests && (r.requests[id] == Ended(true) <==> EndsCleanly(limit, ended, polls))
    ensures r.requests[id].Ended?
  {
    EffectsOnce(limit, ended, polls, id);
    StreamExact(limit, ended, polls);
    var completed := PollAll(Start(limit, ended), polls).completion.CompletedOnce?;
    assert Lifetime(limit, ended, polls, id) == Ending(id, completed);
    r := EndingRuns(s, id, completed);
  }
}
