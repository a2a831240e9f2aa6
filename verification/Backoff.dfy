/** Reconnection as one goroutine performs it
    (internal/collector/collector.go:48-155): the back-off delays and the
    connection manager whose fields the calls update. */
module Backoff {
  import opened Points
  import opened Bits

  datatype Conn = Online | Reconnecting | Offline

  datatype Exit = Recovered | Tripped | Cancelled

  const MAX_DELAY: nat := 30

  /** Seconds waited before attempt k. */
  function Delay(k: nat): nat
    requires k >= 1
  {
    if Pow2(k - 1) < MAX_DELAY then Pow2(k - 1) else MAX_DELAY
  }

  /** The delays before attempts 1 to n. */
  function Delays(n: nat): (d: seq<nat>)
    ensures |d| == n
    ensures forall i :: 0 <= i < n ==> d[i] == Delay(i + 1)
  {
    seq(n, i requires 0 <= i < n => Delay(i + 1))
  }

  function Sum(d: seq<nat>): nat {
    if d == [] then 0 else Sum(d[..|d| - 1]) + d[|d| - 1]
  }

  lemma DelaysSnoc(n: nat)
    requires n >= 1
    ensures Delays(n) == Delays(n - 1) + [Delay(n)] && Delays(n)[..n - 1] == Delays(n - 1)
  {
  }

  lemma DelaysNeverShrink(i: nat, j: nat)
    requires 1 <= i <= j
    ensures 1 <= Delay(i) <= Delay(j) <= MAX_DELAY
  {
    Pow2Grows(i - 1, j - 1);
  }

  /** 1 + 2 + 4 + 8 + 16, then 30 for every further attempt. */
  lemma {:induction false} TotalDelay(n: nat)
    ensures Sum(Delays(n)) == if n < 5 then Pow2(n) - 1 else 31 + 30 * (n - 5)
  {
    if n == 0 {
    } else {
      TotalDelay(n - 1);
      DelaysSnoc(n);
      if n >= 6 {
        assert Pow2(5) == 32;
        Pow2Grows(5, n - 1);
      }
    }
  }

  /** The ten attempts of NewConnManager take three minutes and a second. */
  lemma TenFailures()
    ensures Sum(Delays(10)) == 181
  {
    TotalDelay(10);
  }

  /** What a finished run of the reconnection loop looks like: how many attempts
      were made and which delays were waited or begun. */
  predicate RunShape(maxRetries: nat, exit: Exit, attempts: nat, delays: seq<nat>) {
    && |delays| <= maxRetries && delays == Delays(|delays|)
    && match exit
       case Recovered => attempts == |delays| >= 1
       case Tripped => attempts == |delays| == maxRetries
       case Cancelled => attempts + 1 == |delays|
  }

  /** The fields a finished call leaves when nobody else touches them. */
  predicate Leaves(exit: Exit, attempts: nat, retriesBefore: nat, state: Conn, client: bool, retryCount: nat) {
    match exit
    case Recovered => state == Online && client && retryCount == 0
    case Tripped => state == Offline && !client && retryCount == 0
    case Cancelled => state == Reconnecting && !client && retryCount == if attempts == 0 then retriesBefore else attempts
  }

  /** Every finished run is bounded in attempts and in time. */
  lemma RunIsBounded(maxRetries: nat, exit: Exit, attempts: nat, delays: seq<nat>)
    requires RunShape(maxRetries, exit, attempts, delays)
    ensures attempts <= maxRetries
    ensures forall i, j :: 0 <= i <= j < |delays| ==> 1 <= delays[i] <= delays[j] <= MAX_DELAY
    ensures Sum(delays) <= 30 * maxRetries
    ensures maxRetries >= 5 ==> Sum(delays) <= 31 + 30 * (maxRetries - 5)
    ensures maxRetries >= 5 && exit == Tripped ==> Sum(delays) == 31 + 30 * (maxRetries - 5)
  {
    hide Delays, Sum, Delay;
    TotalDelay(|delays|);
    SumBound(|delays|);
    Pow2Grows(|delays|, if |delays| <= 5 then 5 else |delays|);
    assert Pow2(5) == 32;
    hide Pow2;
    forall i, j | 0 <= i <= j < |delays| ensures 1 <= delays[i] <= delays[j] <= MAX_DELAY {
      DelaysNeverShrink(i + 1, j + 1);
    }
  }

  lemma {:induction false} SumBound(n: nat)
    ensures Sum(Delays(n)) <= 30 * n
  {
    if n == 0 {
    } else {
      SumBound(n - 1);
      DelaysSnoc(n);
    }
  }

  /** What a probe tick finds: the context is done, or the connection attempt
      made then succeeds or not. */
  datatype Tick = Done | Attempt(ok: bool)

  /** The TCP handler: none yet, or one that is connected or closed. Closing it
      does not take it away. */
  datatype Handler = NoHandler | Handler(connected: bool)

  function Closed(h: Handler): Handler {
    if h == NoHandler then NoHandler else Handler(false)
  }

  class ConnManager {
    const maxRetries: nat
    var state: Conn
    var retryCount: nat
    var reconnecting: bool
    var client: bool
    var handler: Handler
    var probes: nat

    constructor (maxRetries: nat)
      ensures this.maxRetries == maxRetries && state == Online && retryCount == 0 && probes == 0
      ensures !reconnecting && !client && handler == NoHandler
    {
      this.maxRetries := maxRetries;
      state, retryCount, reconnecting, client, handler, probes := Online, 0, false, false, NoHandler, 0;
    }

    /** A failed dial leaves its handler behind and the old client in place. */
    method Connect(dialled: bool) returns (ok: bool)
      modifies this`handler, this`client
      ensures ok == dialled && handler == Handler(dialled)
      ensures client == (dialled || old(client))
    {
      handler := Handler(dialled);
      if !dialled {
        return false;
      }
      client := true;
      return true;
    }

    method Close()
      modifies this`handler, this`client
      ensures !client && handler == NoHandler
    {
      client := false;
      if handler == NoHandler {
        return;
      }
      handler := NoHandler;
    }

    /** The client handed out for a scan or a write. */
    function GetClient(): (usable: bool)
      reads this
    {
      if state.Offline? || state.Reconnecting? then false else client
    }

    /** `cancelled` and `dialled` say, for each attempt, whether the context was
        done before the timer and whether Connect succeeded. */
    method ReconnectWithBackoff(cancelled: nat -> bool, dialled: nat -> bool)
      returns (exit: Option<Exit>, attempts: nat, delays: seq<nat>)
      modifies this
      ensures exit.None? <==> old(reconnecting)
      ensures old(reconnecting) ==> attempts == 0 && delays == [] && state == old(state) && reconnecting
      ensures old(reconnecting) ==> retryCount == old(retryCount) && client == old(client) && handler == old(handler) && probes == old(probes)
      ensures exit.Some? ==> !reconnecting && RunShape(maxRetries, exit.value, attempts, delays)
      ensures exit.Some? ==> Leaves(exit.value, attempts, old(retryCount), state, client, retryCount)
      ensures exit.Some? ==> forall k :: 1 <= k < |delays| ==> !cancelled(k) && !dialled(k)
      ensures exit == Some(Recovered) ==>
                !cancelled(attempts) && dialled(attempts) && handler == Handler(true) && state == Online && GetClient() && retryCount == 0 && probes == old(probes)
      ensures exit == Some(Tripped) ==>
                (maxRetries > 0 ==> !cancelled(maxRetries) && !dialled(maxRetries))
                && state == Offline && !GetClient() && retryCount == 0 && probes == old(probes) + 1
      ensures exit.Some? && exit.value != Recovered ==> 
                handler == if attempts == 0 && old(handler) == NoHandler then NoHandler else Handler(false)
      ensures exit == Some(Cancelled) ==>
                cancelled(|delays|) && state == Reconnecting && !client && probes == old(probes)
                && retryCount == (if attempts == 0 then old(retryCount) else attempts)
    {
      attempts, delays := 0, [];
      if reconnecting {
        return None, 0, [];
      }
      reconnecting := true;
      handler := Closed(handler);
      client := false;
      state := Reconnecting;
      var attempt := 1;
      while attempt <= maxRetries
        invariant 1 <= attempt <= maxRetries + 1
        invariant attempts == attempt - 1 && delays == Delays(attempts)
        invariant forall k :: 1 <= k < attempt ==> !cancelled(k) && !dialled(k)
        invariant handler == if attempts == 0 then Closed(old(handler)) else Handler(false)
        invariant state == Reconnecting && reconnecting && !client && probes == old(probes)
        invariant retryCount == if attempts == 0 then old(retryCount) else attempts
      {
        DelaysSnoc(attempt);
        delays := delays + [Delay(attempt)];
        if cancelled(attempt) {
          reconnecting := false;
          return Some(Cancelled), attempts, delays;
        }
        var ok := Connect(dialled(attempt));
        attempts := attempt;
        if ok {
          retryCount := 0;
          state := Online;
          reconnecting := false;
          return Some(Recovered), attempts, delays;
        }
        retryCount := attempt;
        attempt := attempt + 1;
      }
      retryCount := 0;
      state := Offline;
      probes := probes + 1;
      reconnecting := false;
      return Some(Tripped), attempts, delays;
    }

    /** The probe: it gives up when cancelled or when somebody else has left the
        offline state, and otherwise tries once a tick until it succeeds. The
        ticks given are those that happen while it runs. */
    method HeartbeatProbe(ticks: seq<Tick>) returns (tried: nat, ended: bool)
      modifies this`state, this`retryCount, this`handler, this`client
      ensures tried <= |ticks| && forall i :: 0 <= i < tried - 1 ==> ticks[i] == Attempt(false)
      ensures !ended ==> state == old(state) && tried == |ticks| && forall i :: 0 <= i < tried ==> ticks[i] == Attempt(false)
      ensures old(state) != Offline ==> state == old(state) && tried == 0
      ensures old(state) == Offline ==> state == if tried > 0 && ticks[tried - 1] == Attempt(true) then Online else Offline
      ensures old(state) == Offline && state == Online ==> ended && GetClient() && retryCount == 0
    {
      tried := 0;
      while tried < |ticks|
        invariant 0 <= tried <= |ticks|
        invariant forall i :: 0 <= i < tried ==> ticks[i] == Attempt(false)
        invariant state == old(state) && (tried > 0 ==> state == Offline)
      {
        if ticks[tried].Done? || state != Offline {
          return tried, true;
        }
        var ok := Connect(ticks[tried].ok);
        tried := tried + 1;
        if ok {
          retryCount := 0;
          state := Online;
          return tried, true;
        }
      }
      return tried, false;
    }
  }
}
