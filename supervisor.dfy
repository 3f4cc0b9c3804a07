/**
 * The master process of start.js: the worker roster, the autoscaling tick,
 * the death handler, the three ban timers and the handler for messages from
 * workers. Forking and killing a worker and sending it a message are recorded
 * as effects (`nextWorker`, `killed`, `outbox`); the clock and Math.random()
 * are parameters.
 */
module Supervisor {
  import opened Wrappers
  import opened Messages
  import BanTracker

  /** The most workers the tick will grow the pool to. */
  const MaxWorkers: nat := 100
  /** The demand estimate adds up to requestCount / MaxExtraWorkerPercent. */
  const MaxExtraWorkerPercent: nat := 10
  /** Over-allocated ticks needed before a worker is stopped. */
  const OverAllocationLimit: nat := 8

  function Max(a: int, b: int): int {
    if a < b then b else a
  }

  /**
   * The scale-down test `requestCount + Math.random() * (requestCount /
   * maxExtraWorkerPercent) < workerCount`, with `r` standing for the random
   * number in [0, 1). Whatever the random number, the test only passes with
   * fewer requests than workers, and always passes with at most 10/11 of a
   * request per worker.
   */
  function OverAllocated(requestCount: nat, workerCount: nat, r: real): (o: bool)
    requires 0.0 <= r < 1.0
    ensures o ==> requestCount < workerCount
    ensures 11 * requestCount <= 10 * workerCount && workerCount > 0 ==> o
  {
    var rc, wc := requestCount as real, workerCount as real;
    var q := rc / (MaxExtraWorkerPercent as real);
    var e := r * q;
    SlackBounds(r, q, e);
    SlackBelowWorkers(rc, wc, q, e);
    rc + r * (rc / (MaxExtraWorkerPercent as real)) < wc
  }

  /** The random slack lies in [0, q], and below q when q is positive. */
  lemma SlackBounds(r: real, q: real, e: real)
    requires 0.0 <= r < 1.0 && 0.0 <= q && e == r * q
    ensures 0.0 <= e <= q
    ensures q > 0.0 ==> e < q
  {
    var d := 1.0 - r;
    assert q - e == d * q;
    assert 0.0 < d;
    assert 0.0 <= d * q;
    if q > 0.0 {
      assert 0.0 < d * q;
    }
  }

  lemma SlackBelowWorkers(rc: real, wc: real, q: real, e: real)
    requires 0.0 <= rc && q == rc / 10.0 && 0.0 <= e <= q && (q > 0.0 ==> e < q)
    ensures 11.0 * rc <= 10.0 * wc && wc > 0.0 ==> rc + e < wc
  {
  }

  /** What one tick does once the streak and count are settled for this second. */
  datatype Plan = Plan(start: bool, kill: bool, overAllocations: nat)

  /**
   * The decision of one tick: start a worker when there are more requests than
   * workers and room to grow; otherwise, on an over-allocated tick, lengthen the
   * streak and, once it reaches the limit with more workers than the minimum
   * and a last worker to stop, stop it and restart the streak.
   */
  function TickPlan(requestCount: nat, workerCount: nat, overAllocations: nat, minWorkers: nat,
                    hasLast: bool, r: real): (p: Plan)
    requires 0.0 <= r < 1.0
    ensures !(p.start && p.kill)
    ensures p.start <==> requestCount > workerCount && workerCount < MaxWorkers
    ensures p.kill ==> requestCount < workerCount && workerCount > minWorkers && hasLast
    ensures p.kill ==> overAllocations + 1 >= OverAllocationLimit && p.overAllocations == 0
    ensures !p.kill ==> p.overAllocations == overAllocations || p.overAllocations == overAllocations + 1
    ensures p.overAllocations == overAllocations + 1 ==> requestCount < workerCount
    ensures p.kill <==> !(requestCount > workerCount && workerCount < MaxWorkers) &&
                        OverAllocated(requestCount, workerCount, r) &&
                        overAllocations + 1 >= OverAllocationLimit && workerCount > minWorkers && hasLast
    ensures !p.kill ==> (p.overAllocations == overAllocations + 1 <==>
                         !(requestCount > workerCount && workerCount < MaxWorkers) &&
                         OverAllocated(requestCount, workerCount, r))
  {
    if requestCount > workerCount && workerCount < MaxWorkers then
      Plan(true, false, overAllocations)
    else if OverAllocated(requestCount, workerCount, r) then
      var streak := overAllocations + 1;
      if streak >= OverAllocationLimit && workerCount > minWorkers && hasLast then Plan(false, true, 0)
      else Plan(false, false, streak)
    else
      Plan(false, false, overAllocations)
  }

  /** A tick never takes the worker count outside [minWorkers, max(minWorkers, MaxWorkers)]. */
  lemma TickPlanKeepsBounds(requestCount: nat, workerCount: nat, overAllocations: nat, minWorkers: nat,
                            hasLast: bool, r: real)
    requires 0.0 <= r < 1.0
    requires minWorkers <= workerCount <= Max(minWorkers, MaxWorkers)
    ensures var p := TickPlan(requestCount, workerCount, overAllocations, minWorkers, hasLast, r);
            var after := if p.start then workerCount + 1 else workerCount;
            minWorkers <= after <= Max(minWorkers, MaxWorkers)
  {
  }

  /** The roster after removing the last occurrence of `w`, as the death handler does. */
  function Without(s: seq<WorkerId>, w: WorkerId): (r: seq<WorkerId>)
    ensures w !in s ==> r == s
    ensures w in s ==> |r| == |s| - 1
  {
    if s == [] then []
    else if s[|s| - 1] == w then s[..|s| - 1]
    else Without(s[..|s| - 1], w) + [s[|s| - 1]]
  }

  lemma {:induction false} WithoutAt(s: seq<WorkerId>, w: WorkerId, i: nat)
    requires i < |s| && s[i] == w && w !in s[i + 1..]
    ensures Without(s, w) == s[..i] + s[i + 1..]
    decreases |s|
  {
    var last := s[|s| - 1];
    var t := s[..|s| - 1];
    if i < |s| - 1 {
      assert last == s[i + 1..][|s| - 2 - i];
      assert last != w;
      assert t[i + 1..] == s[i + 1..][..|s| - 2 - i];
      assert w !in t[i + 1..];
      WithoutAt(t, w, i);
      assert Without(s, w) == Without(t, w) + [last];
      assert t[i + 1..] + [last] == s[i + 1..];
      assert t[..i] == s[..i];
      assert Without(s, w) == s[..i] + (t[i + 1..] + [last]);
    } else {
      assert s[i + 1..] == [];
      assert s[..i] == t;
    }
  }

  /** The death handler removes one roster entry for the dead worker and nothing else. */
  lemma {:induction false} WithoutRemovesOne(s: seq<WorkerId>, w: WorkerId)
    ensures multiset(Without(s, w)) == multiset(s) - multiset{w}
    decreases |s|
  {
    if s != [] {
      var t, last := s[..|s| - 1], s[|s| - 1];
      assert s == t + [last];
      if last != w {
        WithoutRemovesOne(t, w);
      }
    }
  }

  lemma RemoveAtNoDup(s: seq<WorkerId>, i: nat)
    requires BanTracker.NoDup(s) && i < |s|
    ensures BanTracker.NoDup(s[..i] + s[i + 1..]) && s[i] !in s[..i] + s[i + 1..]
    ensures forall x :: x in s[..i] + s[i + 1..] ==> x in s
  {
    var t := s[..i] + s[i + 1..];
    assert forall a :: 0 <= a < |t| ==> t[a] == (if a < i then s[a] else s[a + 1]);
  }

  lemma AppendFreshNoDup(s: seq<WorkerId>, x: WorkerId)
    requires BanTracker.NoDup(s) && x !in s
    ensures BanTracker.NoDup(s + [x])
  {
    var t := s + [x];
    forall a, b | 0 <= a < b < |t| ensures t[a] != t[b] {
      if b == |s| {
        assert t[a] == s[a];
      }
    }
  }

  /** Sending `snapshot` to every worker, walking the roster from its end. */
  function Broadcast(ws: seq<WorkerId>, snapshot: map<string, int>): (out: seq<Envelope>)
    ensures |out| == |ws|
    ensures forall k :: 0 <= k < |ws| ==> out[k] == Envelope(ws[|ws| - 1 - k], UpdateAttackers(snapshot))
  {
    if ws == [] then [] else Broadcast(ws[1..], snapshot) + [Envelope(ws[0], UpdateAttackers(snapshot))]
  }

  class Supervisor {
    /** `require('os').cpus().length`. */
    const minWorkers: nat
    var workers: seq<WorkerId>
    var workerCount: int
    /** Requests reported since the tick last saw a new second. */
    var requestCount: nat
    /** The second the tick last saw. */
    var lastRequest: int
    var attackerCheck: map<string, nat>
    var attackers: map<string, int>
    var attackersOrdered: seq<string>
    var overAllocations: nat
    /** The handle the next fork returns. */
    var nextWorker: WorkerId
    /** Every message sent to a worker, in order. */
    var outbox: seq<Envelope>
    /** Every worker sent a kill, in order. */
    var killed: seq<WorkerId>
    /** The latest second a message was handled at; the clock never goes back. */
    ghost var clock: int

    function Bans(): BanTracker.Bans
      reads this
    {
      BanTracker.Bans(attackerCheck, attackers, attackersOrdered)
    }

    /** The counter matches the roster, and every handle is a distinct earlier fork. */
    ghost predicate RosterValid()
      reads this
    {
      && workerCount == |workers|
      && BanTracker.NoDup(workers)
      && (forall w :: w in workers ==> w < nextWorker)
    }

    ghost predicate Valid()
      reads this
    {
      && RosterValid()
      && minWorkers <= workerCount <= Max(minWorkers, MaxWorkers)
      && BanTracker.Consistent(Bans(), clock)
    }

    /** The master's start: empty tables, then `minWorkers` forks. */
    constructor (cpus: nat)
      ensures Valid()
      ensures minWorkers == cpus && |workers| == cpus && nextWorker == cpus
      ensures requestCount == 0 && lastRequest == 0 && overAllocations == 0
      ensures attackerCheck == map[] && attackers == map[] && attackersOrdered == []
      ensures outbox == [] && killed == []
    {
      minWorkers := cpus;
      workers, workerCount := [], 0;
      requestCount, lastRequest, overAllocations := 0, 0, 0;
      attackerCheck, attackers, attackersOrdered := map[], map[], [];
      nextWorker, outbox, killed := 0, [], [];
      clock := 0;
      new;
      var i := 0;
      while i < minWorkers
        invariant 0 <= i <= minWorkers
        invariant RosterValid() && |workers| == i && nextWorker == i
        invariant requestCount == 0 && lastRequest == 0 && overAllocations == 0
        invariant attackerCheck == map[] && attackers == map[] && attackersOrdered == []
        invariant outbox == [] && killed == []
      {
        StartWorker();
        i := i + 1;
      }
    }

    /** `startWorker`: fork, add the fork to the roster, count it. */
    method StartWorker()
      requires RosterValid()
      modifies this
      ensures RosterValid()
      ensures workers == old(workers) + [old(nextWorker)] && nextWorker == old(nextWorker) + 1
      ensures unchanged(this`requestCount, this`lastRequest, this`overAllocations, this`outbox, this`killed, this`clock)
      ensures unchanged(this`attackerCheck, this`attackers, this`attackersOrdered)
    {
      assert nextWorker !in workers;
      AppendFreshNoDup(workers, nextWorker);
      workers := workers + [nextWorker];
      workerCount := workerCount + 1;
      nextWorker := nextWorker + 1;
    }

    /** The master's `handleMessage`, for a message from worker `from` received at second `now`. */
    method HandleMessage(from: WorkerId, msg: Message, now: int)
      requires Valid() && now > 0 && now >= clock
      modifies this
      ensures Valid() && clock == now
      ensures msg.Request? ==> requestCount == old(requestCount) + 1 &&
                               Bans() == BanTracker.RecordRequest(old(Bans()), msg.ipAddress, now)
      ensures !msg.Request? ==> requestCount == old(requestCount) && Bans() == old(Bans())
      ensures outbox == if msg.Online? then old(outbox) + [Envelope(from, UpdateAttackers(attackers))]
                        else old(outbox)
      ensures unchanged(this`workers, this`workerCount, this`nextWorker, this`killed)
      ensures unchanged(this`lastRequest, this`overAllocations)
    {
      clock := now;
      match msg
      case Request(ipAddress) =>
        requestCount := requestCount + 1;
        ghost var b := Bans();
        BanTracker.RecordRequestConsistent(b, ipAddress, now, old(clock));
        CountRequest(ipAddress, now);
      case Online =>
        outbox := outbox + [Envelope(from, UpdateAttackers(attackers))];
      case _ =>
    }

    /** The `request` case: count the address and ban it once it passes the limit. */
    method CountRequest(ipAddress: Option<string>, now: int)
      modifies this`attackerCheck, this`attackers, this`attackersOrdered
      ensures Bans() == BanTracker.RecordRequest(old(Bans()), ipAddress, now)
    {
      if ipAddress.Some? && ipAddress.value != "" {
        var ip := ipAddress.value;
        if !(ip in attackerCheck && attackerCheck[ip] != 0) {
          attackerCheck := attackerCheck[ip := 1];
        } else {
          attackerCheck := attackerCheck[ip := attackerCheck[ip] + 1];
        }
        if attackerCheck[ip] > BanTracker.RequestsPerIPPerSecond {
          if !BanTracker.Stamped(attackers, ip) {
            attackers := attackers[ip := now];
            attackersOrdered := attackersOrdered + [ip];
          }
        }
      }
    }

    /** The `death` handler: drop the dead worker and refill up to the minimum. */
    method OnDeath(worker: WorkerId)
      requires Valid()
      modifies this
      ensures Valid()
      ensures var rest := Without(old(workers), worker);
              && workers == (if |rest| < minWorkers then rest + [old(nextWorker)] else rest)
              && nextWorker == (if |rest| < minWorkers then old(nextWorker) + 1 else old(nextWorker))
      ensures worker < old(nextWorker) ==> worker !in workers
      ensures unchanged(this`requestCount, this`lastRequest, this`overAllocations, this`outbox, this`killed, this`clock)
      ensures unchanged(this`attackerCheck, this`attackers, this`attackersOrdered)
    {
      var i := |workers|;
      while i > 0
        invariant 0 <= i <= |workers|
        invariant workers == old(workers) && workerCount == old(workerCount)
        invariant worker !in workers[i..]
      {
        i := i - 1;
        if workers[i] == worker {
          WithoutAt(workers, worker, i);
          RemoveAtNoDup(workers, i);
          workerCount := workerCount - 1;
          workers := workers[..i] + workers[i + 1..];
          assert forall x :: x in workers ==> x in old(workers);
          break;
        }
      }
      assert workers == Without(old(workers), worker) && worker !in workers;
      if workerCount < minWorkers {
        StartWorker();
      }
    }

    /** The one-second timer: forget every address's count. */
    method ResetWindow()
      requires Valid()
      modifies this
      ensures Valid()
      ensures Bans() == BanTracker.ResetWindow(old(Bans()))
      ensures unchanged(this`workers, this`workerCount, this`nextWorker, this`killed, this`outbox)
      ensures unchanged(this`requestCount, this`lastRequest, this`overAllocations, this`clock)
    {
      attackerCheck := map[];
    }

    /** The 300 ms timer: send the ban table to every worker, last worker first. */
    method Propagate()
      requires Valid()
      modifies this
      ensures Valid()
      ensures outbox == old(outbox) + Broadcast(workers, attackers)
      ensures unchanged(this`workers, this`workerCount, this`nextWorker, this`killed)
      ensures unchanged(this`requestCount, this`lastRequest, this`overAllocations, this`clock)
      ensures unchanged(this`attackerCheck, this`attackers, this`attackersOrdered)
    {
      var i := |workers|;
      while i > 0
        invariant 0 <= i <= |workers|
        invariant outbox == old(outbox) + Broadcast(workers[i..], attackers)
        invariant unchanged(this`workers, this`workerCount, this`nextWorker, this`killed)
        invariant unchanged(this`requestCount, this`lastRequest, this`overAllocations, this`clock)
        invariant unchanged(this`attackerCheck, this`attackers, this`attackersOrdered)
      {
        i := i - 1;
        assert workers[i..][1..] == workers[i + 1..];
        outbox := outbox + [Envelope(workers[i], UpdateAttackers(attackers))];
      }
    }

    /** The 60-second timer: delete the expired bans at the front of the ordered list. */
    method ExpireBans(now: int)
      requires Valid()
      modifies this
      ensures Valid()
      ensures Bans() == BanTracker.Expire(old(Bans()), now)
      ensures forall ip :: ip in attackers ==> !BanTracker.Expired(old(attackers), ip, now)
      ensures unchanged(this`workers, this`workerCount, this`nextWorker, this`killed, this`outbox)
      ensures unchanged(this`requestCount, this`lastRequest, this`overAllocations, this`clock)
    {
      ghost var b := Bans();
      BanTracker.ExpireConsistent(b, now, clock);
      EvictExpired(now);
      assert Bans() == BanTracker.Expire(b, now);
    }

    /** The loop of the 60-second timer, then the splice of the deleted prefix. */
    method EvictExpired(now: int)
      requires BanTracker.NoDup(attackersOrdered)
      modifies this`attackers, this`attackersOrdered
      ensures Bans() == BanTracker.Expire(old(Bans()), now)
    {
      ghost var b := Bans();
      ghost var o := attackersOrdered;
      var time := now;
      if |attackersOrdered| > 0 {
        var i, removes := 0, 0;
        while i < |attackersOrdered| && attackersOrdered[i] != ""
          invariant 0 <= i <= |o| && removes == i
          invariant attackersOrdered == o
          invariant attackers == b.attackers - BanTracker.Prefix(o, i)
          invariant forall j :: 0 <= j < i ==> BanTracker.Expired(b.attackers, o[j], now)
        {
          var ip := attackersOrdered[i];
          BanTracker.SuffixAvoidsPrefix(o, i);
          if ip in attackers && attackers[ip] + BanTracker.BanDuration < time {
            attackers := attackers - {ip};
            removes := removes + 1;
          } else {
            break;
          }
          BanTracker.PrefixStep(o, i);
          i := i + 1;
        }
        BanTracker.ExpireStopsAt(b, now, i);
        if removes > 0 {
          attackersOrdered := attackersOrdered[removes..];
        } else {
          assert o[0..] == o;
        }
        assert attackersOrdered == o[i..];
      } else {
        BanTracker.ExpireStopsAt(b, now, 0);
        assert BanTracker.Prefix(o, 0) == {};
      }
      assert Bans() == BanTracker.Bans(b.attackerCheck, attackers, attackersOrdered);
    }

    /** The 100 ms autoscaling timer, at second `now` with Math.random() = `r`. */
    method Tick(now: int, r: real)
      requires Valid() && 0.0 <= r < 1.0
      modifies this
      ensures Valid()
      ensures lastRequest == now
      ensures requestCount == if now != old(lastRequest) then 0 else old(requestCount)
      ensures var p := TickPlan(requestCount, old(workerCount),
                                if now != old(lastRequest) then 0 else old(overAllocations),
                                minWorkers, old(workers) != [], r);
              && overAllocations == p.overAllocations
              && workers == (if p.start then old(workers) + [old(nextWorker)] else old(workers))
              && nextWorker == (if p.start then old(nextWorker) + 1 else old(nextWorker))
              && killed == (if p.kill then old(killed) + [old(workers)[|old(workers)| - 1]] else old(killed))
      ensures unchanged(this`attackerCheck, this`attackers, this`attackersOrdered, this`outbox, this`clock)
    {
      var time := now;
      if time != lastRequest {
        requestCount := 0;
        lastRequest := time;
        overAllocations := 0;
      }
      ghost var p := TickPlan(requestCount, workerCount, overAllocations, minWorkers, workers != [], r);
      TickPlanKeepsBounds(requestCount, workerCount, overAllocations, minWorkers, workers != [], r);
      if requestCount > workerCount && workerCount < MaxWorkers {
        StartWorker();
      } else if OverAllocated(requestCount, workerCount, r) {
        overAllocations := overAllocations + 1;
        if overAllocations >= OverAllocationLimit && workerCount > minWorkers {
          if workers != [] {
            killed := killed + [workers[|workers| - 1]];
            overAllocations := 0;
          }
        }
      }
    }
  }
}
