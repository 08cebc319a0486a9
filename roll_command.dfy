/**
 * `RollCommand.onCommand` and `RollCommand.roll`: the handler run for each
 * `/roll` command. The random source is a choice of any value in
 * `[0, sides)` for each die; the host's effects come back as the deliveries
 * and a flag asking it to reload its configuration.
 */
module RollCommand {
  import opened Wrappers
  import opened JavaInt
  import opened Text
  import opened Host
  import opened RollArgs
  import opened RollFormat
  import opened RollBroadcast

  /** How `onCommand` ends: it returns a boolean, or `Integer.parseInt` throws out of it. */
  datatype Exit = Returns(handled: bool) | ThrowsNumberFormat

  const TooManyDiceText: string := Red + "You can't roll that many dice at once"
  const TooManySidesText: string := Red + "You can't roll dice with that many sides"
  const ReloadedText: string := "Configuration reloaded"

  /**
   * One of the two argument loops of `onCommand`: with the permission and at
   * least one argument, stop at the first token matching the pattern and
   * parse it; otherwise keep the default.
   */
  method ScanArgs(args: seq<string>, allowed: bool, p: Pattern, default: int32) returns (r: Scanned)
    ensures r == Scan(args, allowed, p, default)
  {
    r := Value(default);
    if |args| > 0 && allowed {
      var i := 0;
      while i < |args|
        invariant 0 <= i <= |args|
        invariant FirstMatchFrom(args, p, i) == FirstMatchFrom(args, p, 0)
        invariant r == Value(default)
      {
        if Matches(p, args[i]) {
          r := ParseToken(p, args[i]);
          break;
        }
        i := i + 1;
      }
    }
  }

  /**
   * `roll`: fills an array with `count` draws of one to `sides`, then formats
   * the result and broadcasts it or sends it privately.
   */
  method Roll(host: Host, count: int32, sides: int32) returns (values: seq<int32>, sent: seq<Delivery>)
    requires count >= 0 && sides >= 1
    ensures |values| == count
    ensures forall i :: 0 <= i < |values| ==> 1 <= values[i] <= sides
    ensures sent == Deliver(host, FormatString(host.config, host.perms, host.sender.name, values, sides))
  {
    var result := new int32[count];
    for i := 0 to count
      invariant forall j :: 0 <= j < i ==> 1 <= result[j] <= sides
    {
      var draw: int :| 0 <= draw < sides;
      result[i] := draw + 1;
    }
    values := result[..];
    var message := FormatString(host.config, host.perms, host.sender.name, values, sides);
    if host.perms.broadcast {
      sent := Broadcast(host, message);
    } else {
      sent := Message(message);
    }
  }

  /**
   * `onCommand`: help, reload, a refused roll, or a roll, as `Decide` says,
   * with the messages and return value of each.
   */
  method OnCommand(host: Host, args: seq<string>) returns (exit: Exit, reload: bool, sent: seq<Delivery>, values: seq<int32>)
    ensures match Decide(host.config, host.perms, args)
            case ShowHelp =>
              exit == Returns(true) && !reload && values == [] && sent == [Delivery(ToSender, Usage(host.perms))]
            case DoReload =>
              exit == Returns(true) && reload && values == [] && sent == [Delivery(ToSender, ReloadedText)]
            case TooManyDice =>
              exit == Returns(false) && !reload && values == [] && sent == [Delivery(ToSender, TooManyDiceText)]
            case TooManySides =>
              exit == Returns(false) && !reload && values == [] && sent == [Delivery(ToSender, TooManySidesText)]
            case NumberFormatError(_) =>
              exit == ThrowsNumberFormat && !reload && values == [] && sent == []
            case Roll(count, sides) =>
              && exit == Returns(true) && !reload
              && |values| == count
              && (forall i :: 0 <= i < |values| ==> 1 <= values[i] <= sides)
              && sent == Deliver(host, FormatString(host.config, host.perms, host.sender.name, values, sides))
  {
    exit, reload, sent, values := Returns(true), false, [], [];
    if |args| == 1 {
      if EqualsIgnoreCase(args[0], "help") || EqualsIgnoreCase(args[0], "?") {
        sent := [Delivery(ToSender, Usage(host.perms))];
        return;
      }
      if host.perms.reload && EqualsIgnoreCase(args[0], "reload") {
        reload := true;
        sent := [Delivery(ToSender, ReloadedText)];
        return;
      }
    }

    var countScan := ScanArgs(args, host.perms.multiple, CountPattern, host.config.defaultCount);
    if countScan.Unparsable? {
      exit := ThrowsNumberFormat;
      return;
    }
    var sidesScan := ScanArgs(args, host.perms.anySides, SidesPattern, host.config.defaultSides);
    if sidesScan.Unparsable? {
      exit := ThrowsNumberFormat;
      return;
    }
    var count, sides := countScan.n, sidesScan.n;

    if count > host.config.maximumCount {
      sent := [Delivery(ToSender, TooManyDiceText)];
      exit := Returns(false);
      return;
    }
    if sides > host.config.maximumSides {
      sent := [Delivery(ToSender, TooManySidesText)];
      exit := Returns(false);
      return;
    }

    values, sent := Roll(host, Max(1, count), Max(2, sides));
  }

  /**
   * A bare `/roll` under the default configuration rolls one die showing one
   * to six, whoever sends it.
   */
  method BareRoll(perms: Perms, sender: Sender, online: seq<OnlinePlayer>) returns (values: seq<int32>)
    ensures |values| == 1 && 1 <= values[0] <= 6
  {
    var host := Host(DefaultConfig, perms, sender, online);
    BareRollDefaults(perms);
    var exit, reload, sent;
    exit, reload, sent, values := OnCommand(host, []);
  }
}
