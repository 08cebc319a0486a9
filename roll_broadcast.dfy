/**
 * `RollCommand.broadcast`, `message`, `getDSquared` and `square`: who is
 * sent the formatted message.
 */
module RollBroadcast {
  import opened Wrappers
  import opened JavaInt
  import opened Host

  /** `square`, over the integers. */
  function Square(n: int): (r: int)
    ensures r >= 0
    ensures r == 0 <==> n == 0
  {
    n * n
  }

  /** `getDSquared`, over the integers: the squared distance between two blocks. */
  function DSquared(a: Block, b: Block): (r: int)
    ensures r >= 0
  {
    Square(a.x - b.x) + Square(a.y - b.y) + Square(a.z - b.z)
  }

  /** The squared distance is zero exactly on the same block. */
  lemma DSquaredZeroIffSameBlock(a: Block, b: Block)
    ensures DSquared(a, b) == 0 <==> a == b
  {
  }

  lemma DSquaredSymmetric(a: Block, b: Block)
    ensures DSquared(a, b) == DSquared(b, a)
  {
    assert Square(a.x - b.x) == Square(b.x - a.x);
    assert Square(a.y - b.y) == Square(b.y - a.y);
    assert Square(a.z - b.z) == Square(b.z - a.z);
  }

  /**
   * The two tests of the loop in `broadcast`: the world test (crossworld,
   * console, or the same world) and the range test (no range, console, or
   * strictly closer than the range).
   */
  predicate Receives(cfg: Config, sender: Sender, p: OnlinePlayer) {
    && (cfg.crossworld || sender.Console? || sender.world == p.world)
    && (cfg.broadcastRange < 0 || sender.Console? || DSquared(sender.at, p.at) < Square(cfg.broadcastRange))
  }

  /**
   * For a player invoker with a range set, a player in a world the message
   * reaches receives it exactly when strictly inside the range.
   */
  lemma WithinRangeIff(cfg: Config, sender: Sender, p: OnlinePlayer)
    requires sender.InGame? && cfg.broadcastRange >= 0
    requires cfg.crossworld || sender.world == p.world
    ensures Receives(cfg, sender, p) <==> DSquared(sender.at, p.at) < cfg.broadcastRange * cfg.broadcastRange
  {
  }

  /** A player closer than one who receives also receives. */
  lemma CloserAlsoReceives(cfg: Config, sender: Sender, near: OnlinePlayer, far: OnlinePlayer)
    requires near.world == far.world
    requires sender.InGame? ==> DSquared(sender.at, near.at) <= DSquared(sender.at, far.at)
    requires Receives(cfg, sender, far)
    ensures Receives(cfg, sender, near)
  {
  }

  /** With range 10 from the origin, (7, 7, 0) is in (98 < 100) and (8, 8, 0) is out (128). */
  lemma RangeTenExample(cfg: Config, world: int)
    requires cfg.broadcastRange == 10
    ensures Receives(cfg, InGame("roller", world, Block(0, 0, 0)), OnlinePlayer(world, Block(7, 7, 0)))
    ensures !Receives(cfg, InGame("roller", world, Block(0, 0, 0)), OnlinePlayer(world, Block(8, 8, 0)))
  {
    assert Square(10) == 100;
    assert DSquared(Block(0, 0, 0), Block(7, 7, 0)) == 98 by {
      assert Square(0 - 7) == 49 && Square(0 - 0) == 0;
    }
    assert DSquared(Block(0, 0, 0), Block(8, 8, 0)) == 128 by {
      assert Square(0 - 8) == 64 && Square(0 - 0) == 0;
    }
  }

  /** The indices, in online order, of the first `n` online players the message reaches. */
  function Recipients(host: Host, n: nat): (r: seq<nat>)
    requires n <= |host.online|
    ensures forall j :: 0 <= j < |r| ==> r[j] < n
    ensures forall j, k :: 0 <= j < k < |r| ==> r[j] < r[k]
  {
    if n == 0 then []
    else
      Recipients(host, n - 1)
        + (if Receives(host.config, host.sender, host.online[n - 1]) then [n - 1] else [])
  }

  /** Exactly the online players that pass both tests are recipients. */
  lemma {:induction false} RecipientsExact(host: Host, n: nat)
    requires n <= |host.online|
    ensures forall k: nat :: k in Recipients(host, n) <==>
                          k < n && Receives(host.config, host.sender, host.online[k])
  {
    if n > 0 {
      RecipientsExact(host, n - 1);
    }
  }

  /** A console roll reaches every online player, whatever the world and range settings. */
  lemma {:induction false} ConsoleReachesEveryone(host: Host, n: nat)
    requires n <= |host.online| && host.sender.Console?
    ensures Recipients(host, n) == seq(n, i => i)
  {
    if n > 0 {
      ConsoleReachesEveryone(host, n - 1);
    }
  }

  /**
   * With range 0 a player's roll reaches nobody, not even the roller: the
   * distance test is strict.
   */
  lemma {:induction false} RangeZeroReachesNobody(host: Host, n: nat)
    requires n <= |host.online| && host.sender.InGame? && host.config.broadcastRange == 0
    ensures Recipients(host, n) == []
  {
    if n > 0 {
      RangeZeroReachesNobody(host, n - 1);
    }
  }

  /** One message per index, to that online player. */
  function Notify(indices: seq<nat>, text: string): (r: seq<Delivery>)
    ensures |r| == |indices|
    ensures forall j :: 0 <= j < |r| ==> r[j] == Delivery(ToPlayer(indices[j]), text)
  {
    seq(|indices|, j requires 0 <= j < |indices| => Delivery(ToPlayer(indices[j]), text))
  }

  /** Player k is sent a message exactly when k is among the indices. */
  lemma NotifyMembers(indices: seq<nat>, text: string, k: nat)
    ensures Delivery(ToPlayer(k), text) in Notify(indices, text) <==> k in indices
  {
    if k in indices {
      var j :| 0 <= j < |indices| && indices[j] == k;
      assert Notify(indices, text)[j] == Delivery(ToPlayer(k), text);
    }
  }

  /** Looking at one more online player adds its message at the end when it receives one. */
  lemma NotifyStep(host: Host, i: nat, text: string)
    requires i < |host.online|
    ensures Notify(Recipients(host, i + 1), text)
            == Notify(Recipients(host, i), text)
               + (if Receives(host.config, host.sender, host.online[i]) then [Delivery(ToPlayer(i), text)] else [])
  {
    var a, b := Notify(Recipients(host, i + 1), text), Notify(Recipients(host, i), text);
    var c := if Receives(host.config, host.sender, host.online[i]) then [Delivery(ToPlayer(i), text)] else [];
    assert |a| == |b + c|;
    forall j | 0 <= j < |a| ensures a[j] == (b + c)[j] {
      if j < |b| { assert Recipients(host, i + 1)[j] == Recipients(host, i)[j]; }
    }
  }

  /** What `broadcast` sends: nothing for no message; else the log line, if logging, then the recipients. */
  function BroadcastOutput(host: Host, message: Option<string>): seq<Delivery> {
    match message
    case None => []
    case Some(m) =>
      (if host.config.logging then [Delivery(ToLog, m)] else [])
        + Notify(Recipients(host, |host.online|), m)
  }

  /** What `message` sends: the message to the invoker alone, or nothing. */
  function PrivateOutput(message: Option<string>): seq<Delivery> {
    match message
    case None => []
    case Some(m) => [Delivery(ToSender, m)]
  }

  /** `broadcast`: logs the message if configured, then walks the online players and sends to those it reaches. */
  method Broadcast(host: Host, message: Option<string>) returns (sent: seq<Delivery>)
    ensures sent == BroadcastOutput(host, message)
  {
    sent := [];
    if message.None? {
      return;
    }
    var m := message.value;
    if host.config.logging {
      sent := sent + [Delivery(ToLog, m)];
    }
    ghost var logged := sent;
    var i := 0;
    while i < |host.online|
      invariant 0 <= i <= |host.online|
      invariant sent == logged + Notify(Recipients(host, i), m)
    {
      NotifyStep(host, i, m);
      if Receives(host.config, host.sender, host.online[i]) {
        sent := sent + [Delivery(ToPlayer(i), m)];
      }
      i := i + 1;
    }
  }

  /** `message`: sends the message to the invoker, or nothing for no message. */
  method Message(message: Option<string>) returns (sent: seq<Delivery>)
    ensures sent == PrivateOutput(message)
  {
    sent := [];
    if message.None? {
      return;
    }
    sent := [Delivery(ToSender, message.value)];
  }

  /** The dispatch at the end of `roll`: broadcast with the broadcast permission, else a private message. */
  function Deliver(host: Host, message: Option<string>): seq<Delivery> {
    if host.perms.broadcast then BroadcastOutput(host, message) else PrivateOutput(message)
  }

  /** No message means no delivery at all, not even to the log. */
  lemma SilenceSendsNothing(host: Host)
    ensures Deliver(host, None) == []
  {
  }

  /**
   * Without the broadcast permission the only delivery is to the invoker and
   * the online players are not consulted.
   */
  lemma PrivateIgnoresPlayers(host: Host, others: seq<OnlinePlayer>, message: Option<string>)
    requires !host.perms.broadcast
    ensures forall d :: d in Deliver(host, message) ==> d.to == ToSender
    ensures Deliver(host, message) == Deliver(host.(online := others), message)
  {
  }

  /**
   * The log line, if any, followed by one message per listed player: each
   * listed player once, the log exactly when logging, the invoker never.
   */
  lemma LoggedNotify(logging: bool, r: seq<nat>, m: string)
    requires forall i, j :: 0 <= i < j < |r| ==> r[i] < r[j]
    ensures var out := (if logging then [Delivery(ToLog, m)] else []) + Notify(r, m);
      && (forall k: nat :: Delivery(ToPlayer(k), m) in out <==> k in r)
      && (Delivery(ToLog, m) in out <==> logging)
      && (forall d :: d in out ==> d.to != ToSender && d.text == m)
      && (forall i, j :: 0 <= i < j < |out| ==> out[i] != out[j])
  {
    var log: seq<Delivery> := if logging then [Delivery(ToLog, m)] else [];
    var notes := Notify(r, m);
    var out := log + notes;
    forall k: nat ensures Delivery(ToPlayer(k), m) in notes <==> k in r {
      NotifyMembers(r, m, k);
    }
    assert Delivery(ToLog, m) !in notes;
    forall i, j | 0 <= i < j < |out| ensures out[i] != out[j] {
      if i >= |log| {
        assert out[i] == notes[i - |log|] && out[j] == notes[j - |log|];
      } else {
        assert out[j] == notes[j - |log|];
      }
    }
  }

  /**
   * A broadcast reaches online player k exactly when k passes both tests;
   * it reaches the log exactly when logging is on; it never goes to the
   * invoker as such; and it goes to each recipient once.
   */
  lemma BroadcastExact(host: Host, m: string)
    requires host.perms.broadcast
    ensures forall k: nat :: Delivery(ToPlayer(k), m) in Deliver(host, Some(m)) <==>
                          k < |host.online| && Receives(host.config, host.sender, host.online[k])
    ensures Delivery(ToLog, m) in Deliver(host, Some(m)) <==> host.config.logging
    ensures forall d :: d in Deliver(host, Some(m)) ==> d.to != ToSender && d.text == m
    ensures forall i, j :: 0 <= i < j < |Deliver(host, Some(m))| ==> Deliver(host, Some(m))[i] != Deliver(host, Some(m))[j]
  {
    var r := Recipients(host, |host.online|);
    RecipientsExact(host, |host.online|);
    LoggedNotify(host.config.logging, r, m);
  }

  // ------------------------------------------- the code as written, in int

  /** `square` as written: `input * input` in `int`, which wraps for |input| above 46340. */
  function Square32(n: int32): int32 {
    Wrap32(n * n)
  }

  /** `getDSquared` as written: each difference, product and sum wraps in `int`. */
  function DSquared32(a: Block, b: Block): int32 {
    var dx := Wrap32(a.x - b.x);
    var dy := Wrap32(a.y - b.y);
    var dz := Wrap32(a.z - b.z);
    Wrap32(Wrap32(Wrap32(dx * dx) + Wrap32(dy * dy)) + Wrap32(dz * dz))
  }

  /** The tests of `broadcast` as written, on the wrapping `int` arithmetic. */
  predicate ReceivesAsWritten(cfg: Config, sender: Sender, p: OnlinePlayer) {
    && (cfg.crossworld || sender.Console? || sender.world == p.world)
    && (cfg.broadcastRange < 0 || sender.Console? || DSquared32(sender.at, p.at) < Square32(cfg.broadcastRange))
  }

  lemma SquareBound(d: int, bound: int)
    requires 0 <= bound && -bound <= d <= bound
    ensures d * d <= bound * bound
  {
    var e := if d < 0 then -d else d;
    assert d * d == e * e;
    assert e * e <= e * bound <= bound * bound;
  }

  /** On every pair of nearby blocks the code as written agrees with `Receives`. */
  lemma AsWrittenAgreesNearby(cfg: Config, sender: Sender, p: OnlinePlayer)
    requires 0 <= cfg.broadcastRange <= 46340
    requires sender.InGame? ==> (-26754 <= sender.at.x - p.at.x <= 26754
                              && -26754 <= sender.at.y - p.at.y <= 26754
                              && -26754 <= sender.at.z - p.at.z <= 26754)
    ensures ReceivesAsWritten(cfg, sender, p) == Receives(cfg, sender, p)
  {
    SquareBound(cfg.broadcastRange, 46340);
    assert Square32(cfg.broadcastRange) == Square(cfg.broadcastRange);
    if sender.InGame? {
      var a, b := sender.at, p.at;
      SquareBound(a.x - b.x, 26754);
      SquareBound(a.y - b.y, 26754);
      SquareBound(a.z - b.z, 26754);
      assert DSquared32(a, b) == DSquared(a, b);
    }
  }

  lemma FarDSquared32()
    ensures DSquared32(Block(0, 0, 0), Block(46341, 0, 0)) == -2147479015
  {
    assert Wrap32(0 - 46341) == -46341;
    assert Wrap32(0 - 0) == 0;
    assert Wrap32(-46341 * -46341) == -2147479015;
    assert Wrap32(0 * 0) == 0;
    assert Wrap32(-2147479015 + 0) == -2147479015;
  }

  /**
   * A player 46341 blocks away, with range 10: the squared distance wraps to
   * a negative `int`, so the code as written sends the message.
   */
  lemma FarPlayerReceivesAsWritten(cfg: Config)
    requires cfg.broadcastRange == 10
    ensures ReceivesAsWritten(cfg, InGame("roller", 0, Block(0, 0, 0)), OnlinePlayer(0, Block(46341, 0, 0)))
  {
    FarDSquared32();
    assert Square32(10) == 100;
  }

  /** The intended test keeps the message from a player 46341 blocks away at range 10. */
  lemma FarPlayerOutOfRange(cfg: Config)
    requires cfg.broadcastRange == 10
    ensures !Receives(cfg, InGame("roller", 0, Block(0, 0, 0)), OnlinePlayer(0, Block(46341, 0, 0)))
  {
    assert Square(0 - 46341) == 2147488281;
    assert DSquared(Block(0, 0, 0), Block(46341, 0, 0)) == 2147488281;
  }

  /**
   * A range of 46341: its square wraps to a negative `int`, so the code as
   * written reaches nobody, not even a player on the roller's own block.
   */
  lemma WideRangeSilencesAsWritten(cfg: Config)
    requires cfg.broadcastRange == 46341
    ensures !ReceivesAsWritten(cfg, InGame("roller", 0, Block(0, 0, 0)), OnlinePlayer(0, Block(0, 0, 0)))
  {
    WideSquare32();
    SameBlockDSquared32();
  }

  /** The intended test lets a player on the roller's own block receive at range 46341. */
  lemma WideRangeReachesSameBlock(cfg: Config)
    requires cfg.broadcastRange == 46341
    ensures Receives(cfg, InGame("roller", 0, Block(0, 0, 0)), OnlinePlayer(0, Block(0, 0, 0)))
  {
    assert Square(cfg.broadcastRange) > 0;
    DSquaredZeroIffSameBlock(Block(0, 0, 0), Block(0, 0, 0));
  }

  /**
   * At range 46341 the code as written still reaches some players far away:
   * one at (46340, 297, 0) from the roller, whose squared distance also wraps
   * below the wrapped square of the range.
   */
  lemma WideRangeReachesFarAsWritten(cfg: Config)
    requires cfg.broadcastRange == 46341
    ensures ReceivesAsWritten(cfg, InGame("roller", 0, Block(0, 0, 0)), OnlinePlayer(0, Block(46340, 297, 0)))
  {
    WideSquare32();
    FarWideDSquared32();
  }

  lemma FarWideDSquared32()
    ensures DSquared32(Block(0, 0, 0), Block(46340, 297, 0)) == -2147483487
  {
    assert Wrap32(0 - 46340) == -46340;
    assert Wrap32(0 - 297) == -297;
    assert Wrap32(0 - 0) == 0;
    assert Wrap32(-46340 * -46340) == 2147395600;
    assert Wrap32(-297 * -297) == 88209;
    assert Wrap32(2147395600 + 88209) == -2147483487;
    assert Wrap32(0 * 0) == 0;
    assert Wrap32(-2147483487 + 0) == -2147483487;
  }

  lemma WideSquare32()
    ensures Square32(46341) == -2147479015
  {
    assert Wrap32(46341 * 46341) == -2147479015;
  }

  lemma SameBlockDSquared32()
    ensures DSquared32(Block(0, 0, 0), Block(0, 0, 0)) == 0
  {
    assert Wrap32(0) == 0;
  }
}
