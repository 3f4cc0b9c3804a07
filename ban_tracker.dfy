/**
 * The master's ban bookkeeping of start.js as values: the per-address request
 * counters of the current one-second window (`attackerCheck`), the ban table
 * from address to ban-start second (`attackers`), and the addresses of the
 * ban table in the order they were banned (`attackersOrdered`).
 */
module BanTracker {
  import opened Wrappers

  /** More requests than this from one address in one window start a ban. */
  const RequestsPerIPPerSecond: nat := 5
  /** How many seconds a ban lasts. */
  const BanDuration: int := 60

  datatype Bans = Bans(attackerCheck: map<string, nat>, attackers: map<string, int>, attackersOrdered: seq<string>)

  predicate NoDup<T(==)>(s: seq<T>) {
    forall i, j :: 0 <= i < j < |s| ==> s[i] != s[j]
  }

  /** JavaScript truthiness of `attackers[ip]`: present and not 0. */
  predicate Stamped(attackers: map<string, int>, ip: string) {
    ip in attackers && attackers[ip] != 0
  }

  /** The number of requests seen from `ip` in the current window. */
  function Window(b: Bans, ip: string): nat {
    if ip in b.attackerCheck then b.attackerCheck[ip] else 0
  }

  /**
   * What the master keeps true of its ban bookkeeping: counters are positive;
   * the ordered list holds each banned address once and nothing else; every
   * ban stamp is truthy; no listed address is the empty string.
   */
  ghost predicate Valid(b: Bans) {
    && (forall ip :: ip in b.attackerCheck ==> b.attackerCheck[ip] > 0)
    && NoDup(b.attackersOrdered)
    && (forall i :: 0 <= i < |b.attackersOrdered| ==>
          b.attackersOrdered[i] in b.attackers && b.attackersOrdered[i] != "")
    && (forall ip :: ip in b.attackers ==> ip in b.attackersOrdered && b.attackers[ip] != 0)
  }

  /** Ban stamps never decrease along the ordered list. */
  ghost predicate Chronological(b: Bans) {
    forall i, j ::
      (0 <= i < j < |b.attackersOrdered| &&
       b.attackersOrdered[i] in b.attackers && b.attackersOrdered[j] in b.attackers) ==>
      b.attackers[b.attackersOrdered[i]] <= b.attackers[b.attackersOrdered[j]]
  }

  /**
   * The ban part of the master's handling of a `request` message received at
   * second `now`: count the address in this window and, when the count goes
   * past the limit, ban it unless it already carries a ban.
   */
  /** Whether recording `ipAddress` starts a new ban: its count passes the limit and it carries no truthy ban. */
  predicate StartsBan(b: Bans, ipAddress: Option<string>) {
    && ipAddress.Some? && ipAddress.value != ""
    && Window(b, ipAddress.value) + 1 > RequestsPerIPPerSecond
    && !Stamped(b.attackers, ipAddress.value)
  }

  function RecordRequest(b: Bans, ipAddress: Option<string>, now: int): (r: Bans)
    ensures ipAddress.None? || ipAddress == Some("") ==> r == b
    ensures r.attackers == if StartsBan(b, ipAddress) then b.attackers[ipAddress.value := now] else b.attackers
    ensures r.attackersOrdered == b.attackersOrdered + (if StartsBan(b, ipAddress) then [ipAddress.value] else [])
    ensures forall ip :: ipAddress != Some(ip) ==> Window(r, ip) == Window(b, ip)
    ensures forall ip :: ipAddress == Some(ip) && ip != "" ==> Window(r, ip) == Window(b, ip) + 1
    ensures forall ip :: ip in b.attackers ==> ip in r.attackers
    ensures forall ip :: Stamped(b.attackers, ip) ==> r.attackers[ip] == b.attackers[ip]
    ensures forall ip :: ip in r.attackers && !(ip in b.attackers && r.attackers[ip] == b.attackers[ip]) ==>
              ipAddress == Some(ip) && Window(r, ip) > RequestsPerIPPerSecond && r.attackers[ip] == now
    ensures forall ip :: ipAddress == Some(ip) && ip != "" && Window(r, ip) > RequestsPerIPPerSecond ==>
              Stamped(b.attackers, ip) || (ip in r.attackers && r.attackers[ip] == now)
  {
    match ipAddress
    case None => b
    case Some(ip) =>
      if ip == "" then b
      else
        var count := if ip in b.attackerCheck && b.attackerCheck[ip] != 0 then b.attackerCheck[ip] + 1 else 1;
        var check := b.attackerCheck[ip := count];
        if count > RequestsPerIPPerSecond && !Stamped(b.attackers, ip) then
          Bans(check, b.attackers[ip := now], b.attackersOrdered + [ip])
        else
          Bans(check, b.attackers, b.attackersOrdered)
  }

  /** Recording a request at a truthy second keeps the bookkeeping consistent. */
  lemma RecordRequestValid(b: Bans, ipAddress: Option<string>, now: int)
    requires Valid(b) && now != 0
    ensures Valid(RecordRequest(b, ipAddress, now))
  {
    var r := RecordRequest(b, ipAddress, now);
    if ipAddress.Some? && ipAddress.value != "" && |r.attackersOrdered| > |b.attackersOrdered| {
      var ip := ipAddress.value;
      assert ip !in b.attackers;
      assert r.attackersOrdered == b.attackersOrdered + [ip];
      forall i | 0 <= i < |b.attackersOrdered| ensures b.attackersOrdered[i] != ip {
      }
      forall x | x in r.attackers ensures x in r.attackersOrdered {
        if x != ip {
          var i :| 0 <= i < |b.attackersOrdered| && b.attackersOrdered[i] == x;
          assert r.attackersOrdered[i] == x;
        } else {
          assert r.attackersOrdered[|b.attackersOrdered|] == ip;
        }
      }
    }
  }

  /** A ban made at a second no earlier than every existing stamp keeps the list chronological. */
  lemma RecordRequestChronological(b: Bans, ipAddress: Option<string>, now: int)
    requires Valid(b) && Chronological(b)
    requires forall ip :: ip in b.attackers ==> b.attackers[ip] <= now
    ensures Chronological(RecordRequest(b, ipAddress, now))
  {
    var r := RecordRequest(b, ipAddress, now);
    if ipAddress.Some? && ipAddress.value != "" && |r.attackersOrdered| > |b.attackersOrdered| {
      var ip := ipAddress.value;
      assert ip !in b.attackers;
      forall i | 0 <= i < |b.attackersOrdered| ensures b.attackersOrdered[i] != ip {
      }
    }
  }

  /** The window reset: every counter goes at once, bans stay. */
  function ResetWindow(b: Bans): (r: Bans)
    ensures forall ip :: Window(r, ip) == 0
    ensures r.attackers == b.attackers && r.attackersOrdered == b.attackersOrdered
  {
    b.(attackerCheck := map[])
  }

  /** Whether the expiry pass deletes the ban of `ip`: `attackers[ip] + banDuration < time`. */
  predicate Expired(attackers: map<string, int>, ip: string, now: int) {
    ip != "" && ip in attackers && attackers[ip] + BanDuration < now
  }

  /** The length of the longest prefix of the ordered list whose bans have all expired. */
  function ExpiredCount(ordered: seq<string>, attackers: map<string, int>, now: int): (k: nat)
    ensures k <= |ordered|
    ensures forall i :: 0 <= i < k ==> Expired(attackers, ordered[i], now)
    ensures k < |ordered| ==> !Expired(attackers, ordered[k], now)
  {
    if ordered == [] || !Expired(attackers, ordered[0], now) then 0
    else 1 + ExpiredCount(ordered[1..], attackers, now)
  }

  function Prefix(ordered: seq<string>, k: nat): (s: set<string>)
    requires k <= |ordered|
  {
    set i | 0 <= i < k :: ordered[i]
  }

  /** Dropping a prefix of the ordered list and its bans keeps the stamps in order. */
  lemma DropPrefixChronological(b: Bans, k: nat)
    requires Chronological(b) && k <= |b.attackersOrdered|
    ensures Chronological(Bans(b.attackerCheck, b.attackers - Prefix(b.attackersOrdered, k), b.attackersOrdered[k..]))
  {
    var o := b.attackersOrdered;
    var a := b.attackers - Prefix(o, k);
    forall i, j | 0 <= i < j < |o[k..]| && o[k..][i] in a && o[k..][j] in a
      ensures a[o[k..][i]] <= a[o[k..][j]]
    {
      assert o[k..][i] == o[k + i] && o[k..][j] == o[k + j];
    }
  }

  /**
   * The 60-second expiry pass: drop the longest expired prefix of the ordered
   * list and delete exactly those addresses from the ban table.
   */
  function Expire(b: Bans, now: int): (r: Bans)
    requires NoDup(b.attackersOrdered)
    ensures r.attackerCheck == b.attackerCheck
    ensures exists k :: 0 <= k <= |b.attackersOrdered| && r.attackersOrdered == b.attackersOrdered[k..]
    ensures forall ip :: ip in b.attackers && ip !in r.attackers ==> Expired(b.attackers, ip, now)
    ensures forall ip :: ip in r.attackers ==> ip in b.attackers && r.attackers[ip] == b.attackers[ip]
  {
    var k := ExpiredCount(b.attackersOrdered, b.attackers, now);
    Bans(b.attackerCheck, b.attackers - Prefix(b.attackersOrdered, k), b.attackersOrdered[k..])
  }

  lemma SuffixAvoidsPrefix(o: seq<string>, k: nat)
    requires NoDup(o) && k <= |o|
    ensures forall i :: k <= i < |o| ==> o[i] !in Prefix(o, k)
    ensures NoDup(o[k..])
  {
    forall i | k <= i < |o| ensures o[i] !in Prefix(o, k) {
    }
  }

  lemma RemainingListed(o: seq<string>, a: map<string, int>, k: nat)
    requires k <= |o|
    requires forall ip :: ip in a ==> ip in o
    ensures forall ip :: ip in a - Prefix(o, k) ==> ip in o[k..]
  {
    forall ip | ip in a - Prefix(o, k) ensures ip in o[k..] {
      var i :| 0 <= i < |o| && o[i] == ip;
      if i >= k {
        assert o[k..][i - k] == ip;
      }
    }
  }

  lemma PrefixStep(o: seq<string>, i: nat)
    requires i < |o|
    ensures Prefix(o, i + 1) == Prefix(o, i) + {o[i]}
  {
  }

  /** An expiry pass that stopped at `i`, at the first ban not expired, did what Expire says. */
  lemma ExpireStopsAt(b: Bans, now: int, i: nat)
    requires NoDup(b.attackersOrdered) && i <= |b.attackersOrdered|
    requires forall j :: 0 <= j < i ==> Expired(b.attackers, b.attackersOrdered[j], now)
    requires i < |b.attackersOrdered| ==> !Expired(b.attackers, b.attackersOrdered[i], now)
    ensures ExpiredCount(b.attackersOrdered, b.attackers, now) == i
    ensures Expire(b, now) == Bans(b.attackerCheck, b.attackers - Prefix(b.attackersOrdered, i), b.attackersOrdered[i..])
  {
  }

  /** Dropping any prefix of the ordered list, and those addresses from the table, keeps the bookkeeping consistent. */
  lemma DropPrefixValid(b: Bans, k: nat)
    requires Valid(b) && k <= |b.attackersOrdered|
    ensures Valid(Bans(b.attackerCheck, b.attackers - Prefix(b.attackersOrdered, k), b.attackersOrdered[k..]))
  {
    var o := b.attackersOrdered;
    var rest := b.attackers - Prefix(o, k);
    var s := o[k..];
    SuffixAvoidsPrefix(o, k);
    RemainingListed(o, b.attackers, k);
    assert forall i :: 0 <= i < |s| ==> s[i] in rest && s[i] != "" by {
      forall i | 0 <= i < |s| ensures s[i] in rest && s[i] != "" {
        assert s[i] == o[k + i];
      }
    }
    assert forall ip :: ip in rest ==> ip in s && rest[ip] != 0;
    assert NoDup(s);
  }

  /** The expiry pass keeps the bookkeeping consistent. */
  lemma ExpireValid(b: Bans, now: int)
    requires Valid(b)
    ensures Valid(Expire(b, now))
  {
    var k := ExpiredCount(b.attackersOrdered, b.attackers, now);
    DropPrefixValid(b, k);
  }

  /**
   * When the ordered list is chronological, the pass removes every expired
   * ban: what remains has not expired.
   */
  lemma ExpireComplete(b: Bans, now: int)
    requires Valid(b) && Chronological(b)
    ensures forall ip :: ip in Expire(b, now).attackers ==> !Expired(b.attackers, ip, now)
  {
    var o := b.attackersOrdered;
    var k := ExpiredCount(o, b.attackers, now);
    forall ip | ip in Expire(b, now).attackers ensures !Expired(b.attackers, ip, now) {
      var i :| 0 <= i < |o| && o[i] == ip;
      SuffixAvoidsPrefix(o, k);
      if i > k {
        assert b.attackers[o[k]] <= b.attackers[o[i]];
      }
    }
  }

  /** The expiry pass keeps the stamps in order along the list. */
  lemma ExpireChronological(b: Bans, now: int)
    requires NoDup(b.attackersOrdered) && Chronological(b)
    ensures Chronological(Expire(b, now))
  {
    DropPrefixChronological(b, ExpiredCount(b.attackersOrdered, b.attackers, now));
  }

  /**
   * Everything the master keeps true of its bans: the invariant, the stamp
   * order along the list, and no stamp later than the last second seen.
   */
  ghost predicate Consistent(b: Bans, clock: int) {
    && Valid(b)
    && Chronological(b)
    && (forall ip :: ip in b.attackers ==> b.attackers[ip] <= clock)
  }

  /** A request at a nonzero second no earlier than the clock keeps the bans consistent. */
  lemma RecordRequestConsistent(b: Bans, ipAddress: Option<string>, now: int, clock: int)
    requires Consistent(b, clock) && now != 0 && clock <= now
    ensures Consistent(RecordRequest(b, ipAddress, now), now)
  {
    RecordRequestValid(b, ipAddress, now);
    RecordRequestChronological(b, ipAddress, now);
  }

  /** The expiry pass keeps the bans consistent and leaves no ban that has run out. */
  lemma ExpireConsistent(b: Bans, now: int, clock: int)
    requires Consistent(b, clock)
    ensures Consistent(Expire(b, now), clock)
    ensures forall ip :: ip in Expire(b, now).attackers ==> !Expired(b.attackers, ip, now)
  {
    ExpireValid(b, now);
    ExpireChronological(b, now);
    ExpireComplete(b, now);
  }

  /** The master's ban bookkeeping after a run of `request` messages received in the same second. */
  function Replay(b: Bans, ips: seq<Option<string>>, now: int): (r: Bans)
    ensures forall ip :: Window(b, ip) <= Window(r, ip)
    ensures b.attackersOrdered <= r.attackersOrdered
    decreases |ips|
  {
    if ips == [] then b else Replay(RecordRequest(b, ips[0], now), ips[1..], now)
  }

  function Occurrences(ips: seq<Option<string>>, ip: string): nat {
    if ips == [] then 0 else (if ips[0] == Some(ip) then 1 else 0) + Occurrences(ips[1..], ip)
  }

  lemma {:induction false} ReplayKeepsBans(b: Bans, ips: seq<Option<string>>, now: int, ip: string)
    requires ip in b.attackers
    ensures ip in Replay(b, ips, now).attackers
    decreases |ips|
  {
    if ips != [] {
      ReplayKeepsBans(RecordRequest(b, ips[0], now), ips[1..], now, ip);
    }
  }

  /**
   * An address with no ban, not yet past the limit in this window, is banned
   * after a run of requests iff its window count goes past the limit; from an
   * empty window, iff it sent more than five requests. Other addresses'
   * requests do not count towards its limit.
   */
  lemma {:induction false} BannedIffOverLimit(b: Bans, ips: seq<Option<string>>, now: int, ip: string)
    requires ip != "" && ip !in b.attackers && Window(b, ip) <= RequestsPerIPPerSecond
    ensures ip in Replay(b, ips, now).attackers <==> Window(b, ip) + Occurrences(ips, ip) > RequestsPerIPPerSecond
    decreases |ips|
  {
    if ips != [] {
      var b' := RecordRequest(b, ips[0], now);
      assert Occurrences(ips, ip) == (if ips[0] == Some(ip) then 1 else 0) + Occurrences(ips[1..], ip);
      assert Window(b', ip) == Window(b, ip) + (if ips[0] == Some(ip) then 1 else 0);
      if ip in b'.attackers {
        ReplayKeepsBans(b', ips[1..], now, ip);
      } else {
        BannedIffOverLimit(b', ips[1..], now, ip);
      }
    }
  }

  /** A ban made during a run of requests in second `now` carries the stamp `now`. */
  lemma {:induction false} ReplayStamps(b: Bans, ips: seq<Option<string>>, now: int, ip: string)
    requires now != 0 && ip !in b.attackers && ip in Replay(b, ips, now).attackers
    ensures Replay(b, ips, now).attackers[ip] == now
    decreases |ips|
  {
    var b' := RecordRequest(b, ips[0], now);
    if ip in b'.attackers {
      assert b'.attackers[ip] == now;
      ReplayKeepsStamp(b', ips[1..], now, ip);
    } else {
      ReplayStamps(b', ips[1..], now, ip);
    }
  }

  /** A truthy ban stamp survives any run of requests. */
  lemma {:induction false} ReplayKeepsStamp(b: Bans, ips: seq<Option<string>>, now: int, ip: string)
    requires Stamped(b.attackers, ip)
    ensures ip in Replay(b, ips, now).attackers && Replay(b, ips, now).attackers[ip] == b.attackers[ip]
    decreases |ips|
  {
    if ips != [] {
      ReplayKeepsStamp(RecordRequest(b, ips[0], now), ips[1..], now, ip);
    }
  }
}
