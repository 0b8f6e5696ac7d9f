/** The per-caller rate limiter of a command handler. */
module RateLimiters {
  import opened Options
  import Arithmetic

  /** When a remote's current window of one second started, and its requests since. */
  datatype RequestLimiter = RequestLimiter(lastRequestTime: int, numRequests: int)

  type RequestMap = map<string, RequestLimiter>

  datatype Caller = Single(remote: string) | Several(remotes: seq<string>)

  /** One call of the handler, at a time in milliseconds. */
  datatype Call = Call(time: int, caller: Caller)

  const WINDOW := 1000

  // ---------- one call ----------

  /** A request charged to one remote: its new entry, and whether it is within the limit. */
  function Charged(entry: Option<RequestLimiter>, now: int, rate: int): (RequestLimiter, bool) {
    if entry.None? then (RequestLimiter(now, 1), true)
    else if now - entry.value.lastRequestTime >= WINDOW then (RequestLimiter(now, 1), true)
    else
      var n := entry.value.numRequests + 1;
      (entry.value.(numRequests := n), n <= rate)
  }

  /** The remotes charged in turn, up to the first that is over its limit. */
  function ChargeAll(m: RequestMap, remotes: seq<string>, now: int, rate: int): (RequestMap, bool)
    decreases |remotes|
  {
    if remotes == [] then (m, true)
    else
      var (entry, valid) := Charged(Lookup(m, remotes[0]), now, rate);
      var m' := m[remotes[0] := entry];
      if valid then ChargeAll(m', remotes[1..], now, rate) else (m', false)
  }

  function Remotes(caller: Caller): seq<string> {
    match caller
    case Single(remote) => [remote]
    case Several(remotes) => remotes
  }

  function Checked(m: RequestMap, call: Call, rate: int): (RequestMap, bool) {
    ChargeAll(m, Remotes(call.caller), call.time, rate)
  }

  class Handler {
    var requestMap: RequestMap

    constructor ()
      ensures requestMap == map[]
    {
      requestMap := map[];
    }

    method CheckRateLimit(call: Call, rate: int) returns (isOK: bool)
      modifies this
      ensures (requestMap, isOK) == Checked(old(requestMap), call, rate)
    {
      isOK := true;
      match call.caller
      case Several(remotes) =>
        var i := 0;
        while i < |remotes|
          invariant 0 <= i <= |remotes| && isOK
          invariant ChargeAll(old(requestMap), remotes, call.time, rate)
                 == ChargeAll(requestMap, remotes[i..], call.time, rate)
        {
          var remote := remotes[i];
          if remote !in requestMap {
            requestMap := requestMap[remote := RequestLimiter(call.time, 1)];
          } else {
            isOK := CheckRequestData(remote, call.time, rate);
          }
          if !isOK {
            return false;
          }
          i := i + 1;
        }
      case Single(remote) =>
        SingleCall(requestMap, remote, call.time, rate);
        if remote !in requestMap {
          requestMap := requestMap[remote := RequestLimiter(call.time, 1)];
          return true;
        } else {
          isOK := CheckRequestData(remote, call.time, rate);
        }
    }

    method CheckRequestData(remote: string, currentTime: int, ratePerSecond: int) returns (valid: bool)
      requires remote in requestMap
      modifies this
      ensures var (entry, ok) := Charged(Some(old(requestMap)[remote]), currentTime, ratePerSecond);
              requestMap == old(requestMap)[remote := entry] && valid == ok
    {
      var requestData := requestMap[remote];
      if currentTime - requestData.lastRequestTime >= WINDOW {
        requestData := RequestLimiter(currentTime, 1);
        valid := true;
      } else {
        requestData := requestData.(numRequests := requestData.numRequests + 1);
        valid := requestData.numRequests <= ratePerSecond;
      }
      requestMap := requestMap[remote := requestData];
    }
  }

  // ---------- whole traces ----------

  function After(m: RequestMap, trace: seq<Call>, rate: int): RequestMap {
    if trace == [] then m
    else Checked(After(m, trace[..|trace| - 1], rate), trace[|trace| - 1], rate).0
  }

  predicate Ordered(trace: seq<Call>) {
    forall i, j :: 0 <= i < j < |trace| ==> trace[i].time <= trace[j].time
  }

  predicate InInterval(time: int, a: int) {
    a <= time < a + WINDOW
  }

  /** The calls of a trace that were let through, were charged to `remote`, and fall
      into the second that starts at `a`. */
  function Admitted(trace: seq<Call>, rate: int, remote: string, a: int): nat {
    if trace == [] then 0
    else
      var front, call := trace[..|trace| - 1], trace[|trace| - 1];
      Admitted(front, rate, remote, a)
      + if InInterval(call.time, a) && remote in Remotes(call.caller)
           && Checked(After(map[], front, rate), call, rate).1
        then 1 else 0
  }

  function Allowance(rate: int): int {
    if rate > 1 then rate else 1
  }

  /** How many admissions of one second a remote's entry leaves room for having happened,
      `now` being the time of the last call. */
  predicate Bounded(entry: Option<RequestLimiter>, now: int, rate: int, a: int, admitted: int) {
    var most := Allowance(rate);
    && (now < a ==> admitted <= 0)
    && (entry.None? ==> admitted <= 0)
    && (entry.Some? ==>
          var start, n := entry.value.lastRequestTime, entry.value.numRequests;
          && n >= 1 && start <= now
          && (start < a ==> admitted <= Arithmetic.Min(n, most) - 1)
          && (InInterval(start, a) ==> admitted <= most - 1 + Arithmetic.Min(n, most))
          && admitted <= 2 * most - 1)
  }

  lemma ChargeBounded(entry: Option<RequestLimiter>, before: int, now: int, rate: int, a: int, admitted: int)
    requires before <= now && Bounded(entry, before, rate, a, admitted)
    ensures var (after, valid) := Charged(entry, now, rate);
            Bounded(Some(after), now, rate, a, if valid && InInterval(now, a) then admitted + 1 else admitted)
  {
  }

  lemma LaterBounded(entry: Option<RequestLimiter>, before: int, now: int, rate: int, a: int, admitted: int, fewer: int)
    requires before <= now && Bounded(entry, before, rate, a, admitted) && fewer <= admitted
    ensures Bounded(entry, now, rate, a, fewer)
  {
  }

  /** A whole call: if it is let through it charges the remote at least once. */
  lemma {:induction false} CallBounded(m: RequestMap, remotes: seq<string>, before: int, now: int, rate: int,
                                       remote: string, a: int, admitted: int)
    requires before <= now && Bounded(Lookup(m, remote), before, rate, a, admitted)
    ensures var (m', ok) := ChargeAll(m, remotes, now, rate);
            Bounded(Lookup(m', remote), now, rate, a,
                    if ok && remote in remotes && InInterval(now, a) then admitted + 1 else admitted)
    decreases |remotes|, 0
  {
    if remotes == [] {
      LaterBounded(Lookup(m, remote), before, now, rate, a, admitted, admitted);
    } else {
      var (entry, valid) := Charged(Lookup(m, remotes[0]), now, rate);
      var m' := m[remotes[0] := entry];
      if remotes[0] == remote {
        ChargeBounded(Lookup(m, remote), before, now, rate, a, admitted);
        var charged := if valid && InInterval(now, a) then admitted + 1 else admitted;
        if valid {
          ChargedOnceMore(m', remotes[1..], now, rate, remote, a, charged);
        }
      } else {
        LaterBounded(Lookup(m, remote), before, now, rate, a, admitted, admitted);
        if valid {
          CallBounded(m', remotes[1..], now, now, rate, remote, a, admitted);
        }
      }
    }
  }

  /** The rest of a call that has charged the remote already. */
  lemma ChargedOnceMore(m: RequestMap, remotes: seq<string>, now: int, rate: int, remote: string, a: int, charged: int)
    requires Bounded(Lookup(m, remote), now, rate, a, charged)
    ensures Bounded(Lookup(ChargeAll(m, remotes, now, rate).0, remote), now, rate, a, charged)
    decreases |remotes|, 1
  {
    CallBounded(m, remotes, now, now, rate, remote, a, charged);
    var (m', ok) := ChargeAll(m, remotes, now, rate);
    LaterBounded(Lookup(m', remote), now, now, rate, a,
                 if ok && remote in remotes && InInterval(now, a) then charged + 1 else charged, charged);
  }

  lemma {:induction false} TraceBounded(trace: seq<Call>, rate: int, remote: string, a: int)
    requires Ordered(trace) && trace != []
    ensures Bounded(Lookup(After(map[], trace, rate), remote), trace[|trace| - 1].time, rate, a,
                    Admitted(trace, rate, remote, a))
  {
    var front, call := trace[..|trace| - 1], trace[|trace| - 1];
    var before := if front == [] then call.time else front[|front| - 1].time;
    if front == [] {
    } else {
      TraceBounded(front, rate, remote, a);
      assert before <= call.time;
    }
    CallBounded(After(map[], front, rate), Remotes(call.caller), before, call.time, rate, remote, a,
                Admitted(front, rate, remote, a));
  }

  /** With a clock that does not run backwards, no remote is let through more than
      2 * max(1, rate) - 1 times in any half-open second. */
  lemma RateBound(trace: seq<Call>, rate: int, remote: string, a: int)
    requires Ordered(trace)
    ensures Admitted(trace, rate, remote, a) <= 2 * Allowance(rate) - 1
  {
    if trace != [] {
      TraceBounded(trace, rate, remote, a);
    }
  }

  // ---------- the bound is reached ----------

  function Burst(remote: string, time: int, k: nat): seq<Call> {
    seq(k, i => Call(time, Single(remote)))
  }

  lemma BurstGrows(trace: seq<Call>, remote: string, time: int, k: nat)
    requires k > 0
    ensures trace + Burst(remote, time, k) == trace + Burst(remote, time, k - 1) + [Call(time, Single(remote))]
  {
  }

  /** A burst inside the running window, within the limit. */
  lemma {:induction false} BurstInWindow(trace: seq<Call>, remote: string, time: int, k: nat, rate: int, a: int,
                                         start: int, n: int)
    requires InInterval(time, a)
    requires Lookup(After(map[], trace, rate), remote) == Some(RequestLimiter(start, n))
    requires time - start < WINDOW && n + k <= rate
    ensures var whole := trace + Burst(remote, time, k);
            && Admitted(whole, rate, remote, a) == Admitted(trace, rate, remote, a) + k
            && Lookup(After(map[], whole, rate), remote) == Some(RequestLimiter(start, n + k))
  {
    hide After, Admitted;
    if k == 0 {
      assert trace + Burst(remote, time, 0) == trace;
    } else {
      BurstInWindow(trace, remote, time, k - 1, rate, a, start, n);
      BurstGrows(trace, remote, time, k);
      OneMoreCall(trace + Burst(remote, time, k - 1), remote, time, rate, a);
    }
  }

  /** What one more call from the remote adds. */
  lemma OneMoreCall(trace: seq<Call>, remote: string, time: int, rate: int, a: int)
    requires InInterval(time, a)
    ensures var (entry, valid) := Charged(Lookup(After(map[], trace, rate), remote), time, rate);
            var whole := trace + [Call(time, Single(remote))];
            && Admitted(whole, rate, remote, a) == Admitted(trace, rate, remote, a) + (if valid then 1 else 0)
            && Lookup(After(map[], whole, rate), remote) == Some(entry)
  {
    var whole := trace + [Call(time, Single(remote))];
    assert whole[..|whole| - 1] == trace;
    SingleCall(After(map[], trace, rate), remote, time, rate);
  }

  /** A burst that starts a new window. */
  lemma FreshBurst(trace: seq<Call>, remote: string, time: int, k: nat, rate: int, a: int)
    requires InInterval(time, a) && 1 <= k <= rate
    requires var entry := Lookup(After(map[], trace, rate), remote);
             entry.Some? ==> time - entry.value.lastRequestTime >= WINDOW
    ensures Admitted(trace + Burst(remote, time, k), rate, remote, a) == Admitted(trace, rate, remote, a) + k
  {
    hide After, Admitted;
    var first := trace + [Call(time, Single(remote))];
    OneMoreCall(trace, remote, time, rate, a);
    BurstInWindow(first, remote, time, k - 1, rate, a, time, 1);
    assert first + Burst(remote, time, k - 1) == trace + Burst(remote, time, k);
  }

  lemma SingleCall(m: RequestMap, remote: string, time: int, rate: int)
    ensures var (entry, valid) := Charged(Lookup(m, remote), time, rate);
            Checked(m, Call(time, Single(remote)), rate) == (m[remote := entry], valid)
  {
    var entry := Charged(Lookup(m, remote), time, rate).0;
    assert ChargeAll(m[remote := entry], [remote][1..], time, rate) == (m[remote := entry], true);
  }

  /** The bound is tight: one call, the rest of the allowance at the end of its second,
      and a whole allowance right after. */
  lemma RateBoundIsReached(rate: int, remote: string)
    requires rate >= 1
    ensures exists trace: seq<Call> :: Ordered(trace) && Admitted(trace, rate, remote, 999) == 2 * rate - 1
  {
    hide After, Admitted, Ordered;
    var first := FirstCall(rate, remote);
    var second := first + Burst(remote, 999, rate - 1);
    BurstInWindow(first, remote, 999, rate - 1, rate, 999, 0, 1);
    var third := second + Burst(remote, 1000, rate);
    FreshBurst(second, remote, 1000, rate, rate, 999);
    BurstsAreOrdered(first, remote, 999, rate - 1);
    BurstsAreOrdered(second, remote, 1000, rate);
  }

  lemma FirstCall(rate: int, remote: string) returns (first: seq<Call>)
    ensures first == [Call(0, Single(remote))] && Ordered(first)
    ensures Lookup(After(map[], first, rate), remote) == Some(RequestLimiter(0, 1))
    ensures Admitted(first, rate, remote, 999) == 0
  {
    first := [Call(0, Single(remote))];
    assert first[..0] == [];
    SingleCall(map[], remote, 0, rate);
  }

  lemma BurstsAreOrdered(trace: seq<Call>, remote: string, time: int, k: nat)
    requires Ordered(trace) && forall i :: 0 <= i < |trace| ==> trace[i].time <= time
    ensures Ordered(trace + Burst(remote, time, k))
    ensures forall i :: 0 <= i < |trace + Burst(remote, time, k)| ==> (trace + Burst(remote, time, k))[i].time <= time
  {
  }

  // ---------- when a call is let through ----------

  /** A remote listed for the `earlier + 1`-st time in one call is within its limit: it has
      no running window, so that this call starts one, or there is room for it and its
      earlier mentions. The first request of a window is always within the limit. */
  predicate HasRoom(entry: Option<RequestLimiter>, now: int, rate: int, earlier: nat) {
    if entry.None? || now >= entry.value.lastRequestTime + 1000 then earlier == 0 || earlier + 1 <= rate
    else entry.value.numRequests + earlier + 1 <= rate
  }

  /** Charging the first remote counts as one more mention of it. */
  lemma RoomAfterFirst(m: RequestMap, first: string, now: int, rate: int, remote: string, earlier: nat)
    requires Charged(Lookup(m, first), now, rate).1
    ensures HasRoom(Lookup(m, first), now, rate, 0)
    ensures HasRoom(Lookup(m[first := Charged(Lookup(m, first), now, rate).0], remote), now, rate, earlier) <==>
            HasRoom(Lookup(m, remote), now, rate, if remote == first then earlier + 1 else earlier)
  {
  }

  function Mentions(remotes: seq<string>, remote: string): nat {
    multiset(remotes)[remote]
  }

  predicate EachHasRoom(m: RequestMap, remotes: seq<string>, now: int, rate: int) {
    forall i :: 0 <= i < |remotes| ==> HasRoom(Lookup(m, remotes[i]), now, rate, Mentions(remotes[..i], remotes[i]))
  }

  lemma MentionsOfMore(first: string, rest: seq<string>, i: nat, remote: string)
    requires i <= |rest|
    ensures Mentions(([first] + rest)[..i + 1], remote)
         == Mentions(rest[..i], remote) + if remote == first then 1 else 0
  {
    assert ([first] + rest)[..i + 1] == [first] + rest[..i];
  }

  lemma RoomForRest(m: RequestMap, first: string, rest: seq<string>, now: int, rate: int)
    requires Charged(Lookup(m, first), now, rate).1
    ensures EachHasRoom(m, [first] + rest, now, rate) <==>
            EachHasRoom(m[first := Charged(Lookup(m, first), now, rate).0], rest, now, rate)
  {
    var all, m' := [first] + rest, m[first := Charged(Lookup(m, first), now, rate).0];
    RoomAfterFirst(m, first, now, rate, first, 0);
    assert all[..0] == [];
    hide HasRoom, Charged, Mentions;
    forall i | 0 <= i < |rest|
      ensures all[i + 1] == rest[i]
      ensures HasRoom(Lookup(m', rest[i]), now, rate, Mentions(rest[..i], rest[i])) <==>
              HasRoom(Lookup(m, all[i + 1]), now, rate, Mentions(all[..i + 1], all[i + 1]))
    {
      MentionsOfMore(first, rest, i, rest[i]);
      RoomAfterFirst(m, first, now, rate, rest[i], Mentions(rest[..i], rest[i]));
    }
    if EachHasRoom(m', rest, now, rate) {
      NoMentions(first);
      forall i | 0 <= i < |all| ensures HasRoom(Lookup(m, all[i]), now, rate, Mentions(all[..i], all[i])) {
        if i > 0 {
          assert all[i] == rest[i - 1];
        }
      }
    }
  }

  lemma NoMentions(remote: string)
    ensures Mentions([], remote) == 0
  {
  }

  /** A call is let through exactly if each of its remotes, taken in turn, has room. */
  lemma {:induction false} LetThroughIff(m: RequestMap, remotes: seq<string>, now: int, rate: int)
    ensures ChargeAll(m, remotes, now, rate).1 <==> EachHasRoom(m, remotes, now, rate)
    decreases |remotes|
  {
    if remotes == [] {
    } else {
      var first, rest := remotes[0], remotes[1..];
      var (entry, valid) := Charged(Lookup(m, first), now, rate);
      assert remotes == [first] + rest;
      if valid {
        LetThroughIff(m[first := entry], rest, now, rate);
        RoomForRest(m, first, rest, now, rate);
      } else {
        assert remotes[..0] == [];
        NoMentions(first);
      }
    }
  }

  /** The same, said of a whole call. */
  lemma CallerLetThroughIff(m: RequestMap, time: int, caller: Caller, rate: int)
    ensures Checked(m, Call(time, caller), rate).1 <==>
              match caller
              case Single(remote) => HasRoom(Lookup(m, remote), time, rate, 0)
              case Several(remotes) => EachHasRoom(m, remotes, time, rate)
  {
    LetThroughIff(m, Remotes(caller), time, rate);
    match caller
    case Single(remote) =>
      assert [remote][..0] == [];
      NoMentions(remote);
    case Several(_) =>
  }

  /** Every request of a running window counts, let through or not. */
  lemma {:induction false} EveryRequestCounts(m: RequestMap, remote: string, time: int, k: nat, rate: int)
    requires remote in m && time < m[remote].lastRequestTime + 1000
    ensures Lookup(After(m, Burst(remote, time, k), rate), remote)
         == Some(RequestLimiter(m[remote].lastRequestTime, m[remote].numRequests + k))
  {
    if k == 0 {
    } else {
      EveryRequestCounts(m, remote, time, k - 1, rate);
      assert Burst(remote, time, k)[..k - 1] == Burst(remote, time, k - 1);
      SingleCall(After(m, Burst(remote, time, k - 1), rate), remote, time, rate);
    }
  }

  // ---------- lockouts and other callers ----------

  /** Calls within the window never move its start, however many are denied. */
  lemma {:induction false} FloodKeepsWindow(m: RequestMap, trace: seq<Call>, rate: int, remote: string)
    requires remote in m
    requires forall i :: 0 <= i < |trace| ==> trace[i].time < m[remote].lastRequestTime + WINDOW
    ensures var after := After(m, trace, rate);
            remote in after && after[remote].lastRequestTime == m[remote].lastRequestTime
  {
    if trace == [] {
    } else {
      FloodKeepsWindow(m, trace[..|trace| - 1], rate, remote);
      ChargesKeepWindow(After(m, trace[..|trace| - 1], rate), Remotes(trace[|trace| - 1].caller),
                        trace[|trace| - 1].time, rate, remote);
    }
  }

  lemma {:induction false} ChargesKeepWindow(m: RequestMap, remotes: seq<string>, now: int, rate: int, remote: string)
    requires remote in m && now < m[remote].lastRequestTime + WINDOW
    ensures var after := ChargeAll(m, remotes, now, rate).0;
            remote in after && after[remote].lastRequestTime == m[remote].lastRequestTime
    decreases |remotes|
  {
    if remotes == [] {
    } else {
      var (entry, valid) := Charged(Lookup(m, remotes[0]), now, rate);
      ChargesKeepWindow(m[remotes[0] := entry], remotes[1..], now, rate, remote);
    }
  }

  /** A flood never extends the lockout: one window after the first request, the remote
      is let through, whatever it sent in between. */
  lemma LockoutEnds(m: RequestMap, flood: seq<Call>, rate: int, remote: string, time: int)
    requires remote in m && time >= m[remote].lastRequestTime + WINDOW
    requires forall i :: 0 <= i < |flood| ==> flood[i].time < m[remote].lastRequestTime + WINDOW
    ensures Checked(After(m, flood, rate), Call(time, Single(remote)), rate).1
  {
    FloodKeepsWindow(m, flood, rate, remote);
    SingleCall(After(m, flood, rate), remote, time, rate);
  }

  /** How many of the remotes a call charges: all up to the first that is over its limit. */
  function ChargedCount(m: RequestMap, remotes: seq<string>, now: int, rate: int): (n: nat)
    ensures n <= |remotes|
    ensures ChargeAll(m, remotes, now, rate).1 ==> n == |remotes|
    ensures !ChargeAll(m, remotes, now, rate).1 ==> n > 0
    decreases |remotes|
  {
    if remotes == [] then 0
    else
      var (entry, valid) := Charged(Lookup(m, remotes[0]), now, rate);
      1 + if valid then ChargedCount(m[remotes[0] := entry], remotes[1..], now, rate) else 0
  }

  /** A call leaves the entries of all remotes alone but those it charges: of the remotes
      it does not name, and of those named after the first that is over its limit. */
  lemma {:induction false} OthersKeepEntries(m: RequestMap, remotes: seq<string>, now: int, rate: int, other: string)
    requires other !in remotes[..ChargedCount(m, remotes, now, rate)]
    ensures Lookup(ChargeAll(m, remotes, now, rate).0, other) == Lookup(m, other)
    decreases |remotes|
  {
    if remotes == [] {
    } else {
      var (entry, valid) := Charged(Lookup(m, remotes[0]), now, rate);
      var charged := remotes[..ChargedCount(m, remotes, now, rate)];
      assert charged[0] == remotes[0];
      if valid {
        var m' := m[remotes[0] := entry];
        assert charged[1..] == remotes[1..][..ChargedCount(m', remotes[1..], now, rate)];
        OthersKeepEntries(m', remotes[1..], now, rate, other);
      }
    }
  }
}
