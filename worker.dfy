/**
 * The worker side of start.js: the worker's copy of the master's ban table,
 * the handler that replaces it, `checkIsAttacker`, and the routing of an
 * incoming HTTP request. The clock is the parameter `now` (whole seconds).
 * As written, a request is charged to the socket's local address; the
 * per-client charging the limit is meant to have is `Reports` with
 * `ClientBannedIffOverLimit`.
 */
module WorkerProcess {
  import opened Wrappers
  import opened Messages
  import BanTracker

  /**
   * `checkIsAttacker`: the address carries a truthy ban stamp and the ban has
   * not run out, `bannedTime + banDuration > time`.
   */
  function CheckIsAttacker(attackers: map<string, int>, ip: string, now: int): (banned: bool)
    ensures banned ==> BanTracker.Stamped(attackers, ip) && !BanTracker.Expired(attackers, ip, now)
  {
    ip in attackers && attackers[ip] != 0 && attackers[ip] + BanTracker.BanDuration > now
  }

  /** What the worker's HTTP handler does with a request. */
  datatype Route =
      /** `/favicon.ico`: returns without answering. */
    | Ignored
      /** `/test.html`: answered from the file. */
    | TestPage
      /** A banned address: returns without answering and without reporting. */
    | Dropped
      /** Handed to a new RPC session, which reports the request to the master. */
    | Served

  /**
   * The routing of the worker's `http.createServer` callback for `url` on
   * connection `c`, checking the address `request.connection.address().address`.
   */
  function Admit(attackers: map<string, int>, url: string, c: Connection, now: int): (r: Route)
    ensures r == Ignored <==> url == "/favicon.ico"
    ensures r == TestPage <==> url == "/test.html"
    ensures r == Dropped <==>
              url != "/favicon.ico" && url != "/test.html" && CheckIsAttacker(attackers, ChargedAddressAsWritten(c), now)
    ensures r == Served <==>
              url != "/favicon.ico" && url != "/test.html" && !CheckIsAttacker(attackers, ChargedAddressAsWritten(c), now)
  {
    if url == "/favicon.ico" then Ignored
    else if url == "/test.html" then TestPage
    else if CheckIsAttacker(attackers, ChargedAddressAsWritten(c), now) then Dropped
    else Served
  }

  /** A worker process; `attackers` is its latest copy of the master's ban table. */
  class Worker {
    var attackers: map<string, int>

    /** A worker starts with an empty ban table. */
    constructor ()
      ensures attackers == map[]
    {
      attackers := map[];
    }

    /** The worker's `handleMessage`: an `updateAttackers` message replaces the table wholesale. */
    method HandleMessage(msg: Message)
      modifies this
      ensures attackers == if msg.UpdateAttackers? then msg.attackers else old(attackers)
    {
      if msg.UpdateAttackers? {
        attackers := msg.attackers;
      }
    }
  }

  /**
   * The reports of a run of served requests charged to each client's own
   * address, as the per-address limit intends.
   */
  function Reports(conns: seq<Connection>): (ips: seq<Option<string>>)
    ensures |ips| == |conns|
    ensures forall i :: 0 <= i < |conns| ==> ips[i] == Some(ChargedAddress(conns[i]))
  {
    if conns == [] then [] else [Some(ChargedAddress(conns[0]))] + Reports(conns[1..])
  }

  /** The same reports as start.js and rpc.js write them, charged to the socket's local end. */
  function ReportsAsWritten(conns: seq<Connection>): (ips: seq<Option<string>>)
    ensures |ips| == |conns|
    ensures forall i :: 0 <= i < |conns| ==> ips[i] == Some(ChargedAddressAsWritten(conns[i]))
  {
    if conns == [] then [] else [Some(ChargedAddressAsWritten(conns[0]))] + ReportsAsWritten(conns[1..])
  }

  /** How many of the connections come from client address `a`. */
  function SentFrom(conns: seq<Connection>, a: string): nat {
    if conns == [] then 0 else (if conns[0].remoteAddress == a then 1 else 0) + SentFrom(conns[1..], a)
  }

  /** How many of the connections reach the worker at local address `a`. */
  function SentThrough(conns: seq<Connection>, a: string): nat {
    if conns == [] then 0 else (if conns[0].localAddress == a then 1 else 0) + SentThrough(conns[1..], a)
  }

  lemma {:induction false} OccurrencesOfReportsAsWritten(conns: seq<Connection>, a: string)
    ensures BanTracker.Occurrences(ReportsAsWritten(conns), a) == SentThrough(conns, a)
  {
    if conns != [] {
      assert ReportsAsWritten(conns)[1..] == ReportsAsWritten(conns[1..]);
      OccurrencesOfReportsAsWritten(conns[1..], a);
    }
  }

  lemma {:induction false} OccurrencesOfReports(conns: seq<Connection>, a: string)
    ensures BanTracker.Occurrences(Reports(conns), a) == SentFrom(conns, a)
  {
    if conns != [] {
      assert Reports(conns)[1..] == Reports(conns[1..]);
      OccurrencesOfReports(conns[1..], a);
    }
  }

  /**
   * With requests charged to the client's address, a client with no ban and
   * not yet past the limit is banned after a run of requests iff it itself
   * sent enough of them to go past the limit; other clients' requests do not count.
   */
  lemma ClientBannedIffOverLimit(b: BanTracker.Bans, conns: seq<Connection>, now: int, c: Connection)
    requires ChargedAddress(c) != "" && ChargedAddress(c) !in b.attackers
    requires BanTracker.Window(b, ChargedAddress(c)) <= BanTracker.RequestsPerIPPerSecond
    ensures ChargedAddress(c) in BanTracker.Replay(b, Reports(conns), now).attackers <==>
            BanTracker.Window(b, ChargedAddress(c)) + SentFrom(conns, c.remoteAddress) > BanTracker.RequestsPerIPPerSecond
  {
    OccurrencesOfReports(conns, c.remoteAddress);
    BanTracker.BannedIffOverLimit(b, Reports(conns), now, ChargedAddress(c));
  }

  /**
   * As written, two clients reaching the worker through the same local address
   * share one counter: three requests each ban the shared address, and the
   * worker then drops the first client, which sent only three.
   */
  lemma SharedAddressDropsQuietClient(now: int)
    requires now > 0
    ensures var c1 := Connection("10.0.0.5", "203.0.113.1");
            var c2 := Connection("10.0.0.5", "203.0.113.2");
            var conns := [c1, c1, c1, c2, c2, c2];
            var b := BanTracker.Replay(BanTracker.Bans(map[], map[], []), ReportsAsWritten(conns), now);
            && SentFrom(conns, c1.remoteAddress) == 3
            && CheckIsAttacker(b.attackers, ChargedAddressAsWritten(c1), now)
  {
    var c1 := Connection("10.0.0.5", "203.0.113.1");
    var c2 := Connection("10.0.0.5", "203.0.113.2");
    var conns := [c1, c1, c1, c2, c2, c2];
    var b0 := BanTracker.Bans(map[], map[], []);
    var ips := ReportsAsWritten(conns);
    var shared := "10.0.0.5";
    var x: Option<string> := Some(shared);
    assert ips == [x, x, x, x, x, x];
    assert |[x][1..]| == 0;
    assert BanTracker.Occurrences([x], shared) == 1;
    assert [x, x][1..] == [x];
    assert BanTracker.Occurrences([x, x], shared) == 2;
    assert [x, x, x][1..] == [x, x];
    assert BanTracker.Occurrences([x, x, x], shared) == 3;
    assert [x, x, x, x][1..] == [x, x, x];
    assert BanTracker.Occurrences([x, x, x, x], shared) == 4;
    assert [x, x, x, x, x][1..] == [x, x, x, x];
    assert BanTracker.Occurrences([x, x, x, x, x], shared) == 5;
    assert [x, x, x, x, x, x][1..] == [x, x, x, x, x];
    assert BanTracker.Occurrences(ips, shared) == 6;
    BanTracker.BannedIffOverLimit(b0, ips, now, shared);
    BanTracker.ReplayStamps(b0, ips, now, shared);
    var a := c1.remoteAddress;
    assert |[c2][1..]| == 0;
    assert SentFrom([c2], a) == 0;
    assert [c2, c2][1..] == [c2];
    assert SentFrom([c2, c2], a) == 0;
    assert [c2, c2, c2][1..] == [c2, c2];
    assert SentFrom([c2, c2, c2], a) == 0;
    assert [c1, c2, c2, c2][1..] == [c2, c2, c2];
    assert SentFrom([c1, c2, c2, c2], a) == 1;
    assert [c1, c1, c2, c2, c2][1..] == [c1, c2, c2, c2];
    assert SentFrom([c1, c1, c2, c2, c2], a) == 2;
    assert conns[1..] == [c1, c1, c2, c2, c2];
    assert SentFrom(conns, a) == 3;
  }

  /**
   * As written: an address banned during a run of requests in second `now` is
   * dropped at second `t` exactly while `t < now + banDuration`.
   */
  lemma FreshBanDrops(b: BanTracker.Bans, conns: seq<Connection>, now: int, c: Connection, url: string, t: int)
    requires now != 0 && url != "/favicon.ico" && url != "/test.html"
    requires ChargedAddressAsWritten(c) != "" && ChargedAddressAsWritten(c) !in b.attackers
    requires BanTracker.Window(b, ChargedAddressAsWritten(c)) <= BanTracker.RequestsPerIPPerSecond
    requires BanTracker.Window(b, ChargedAddressAsWritten(c)) + SentThrough(conns, c.localAddress) > BanTracker.RequestsPerIPPerSecond
    ensures Admit(BanTracker.Replay(b, ReportsAsWritten(conns), now).attackers, url, c, t) == Dropped <==>
            t < now + BanTracker.BanDuration
  {
    var ip := ChargedAddressAsWritten(c);
    OccurrencesOfReportsAsWritten(conns, c.localAddress);
    BanTracker.BannedIffOverLimit(b, ReportsAsWritten(conns), now, ip);
    BanTracker.ReplayStamps(b, ReportsAsWritten(conns), now, ip);
  }

  /**
   * As written: a connection whose local address carries no ban and receives
   * no more requests than the limit in the run keeps being served.
   */
  lemma UnderLimitServed(b: BanTracker.Bans, conns: seq<Connection>, now: int, c: Connection, url: string, t: int)
    requires url != "/favicon.ico" && url != "/test.html"
    requires ChargedAddressAsWritten(c) != "" && ChargedAddressAsWritten(c) !in b.attackers
    requires BanTracker.Window(b, ChargedAddressAsWritten(c)) + SentThrough(conns, c.localAddress) <= BanTracker.RequestsPerIPPerSecond
    ensures Admit(BanTracker.Replay(b, ReportsAsWritten(conns), now).attackers, url, c, t) == Served
  {
    OccurrencesOfReportsAsWritten(conns, c.localAddress);
    BanTracker.BannedIffOverLimit(b, ReportsAsWritten(conns), now, ChargedAddressAsWritten(c));
  }

  /**
   * The 60-second expiry pass never changes a worker's decision at its own
   * second or later: it deletes only bans that have already run out.
   */
  lemma ExpiryKeepsAdmission(b: BanTracker.Bans, now: int, url: string, c: Connection, t: int)
    requires BanTracker.NoDup(b.attackersOrdered) && now <= t
    ensures Admit(BanTracker.Expire(b, now).attackers, url, c, t) == Admit(b.attackers, url, c, t)
  {
    var ip := ChargedAddressAsWritten(c);
    var r := BanTracker.Expire(b, now);
    if ip in b.attackers && ip !in r.attackers {
      assert BanTracker.Expired(b.attackers, ip, now);
    }
  }
}
