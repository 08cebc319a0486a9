/**
 * The decision `RollCommand.onCommand` takes from its arguments: show help,
 * reload, refuse, or roll `count` dice with `sides` sides, and the usage text
 * `showHelp` sends.
 */
module RollArgs {
  import opened Wrappers
  import opened JavaInt
  import opened Text
  import opened Host

  /** `ChatColor.RED` as text: the section sign and the colour code `c`. */
  const Red: string := "\U{00A7}c"

  /** The two argument forms: `^[0-9]+$` (a count) and `^d[0-9]+$` (a number of sides). */
  datatype Pattern = CountPattern | SidesPattern

  predicate Matches(p: Pattern, token: string) {
    match p
    case CountPattern => IsNumeral(token)
    case SidesPattern => |token| > 0 && token[0] == 'd' && IsNumeral(token[1..])
  }

  /** What `Integer.parseInt` is given: the token itself, or what follows its `d`. */
  function Digits(p: Pattern, token: string): (s: string)
    requires Matches(p, token)
    ensures IsNumeral(s) && |s| <= |token|
  {
    match p
    case CountPattern => token
    case SidesPattern => token[1..]
  }

  /** A token is never both a count and a number of sides. */
  lemma PatternsExclusive(token: string)
    ensures Matches(CountPattern, token) ==> !Matches(SidesPattern, token)
    ensures Matches(SidesPattern, token) ==> !Matches(CountPattern, token)
  {
  }

  /** The index of the first token at or after `k` that matches `p`. */
  function FirstMatchFrom(args: seq<string>, p: Pattern, k: nat): (r: Option<nat>)
    requires k <= |args|
    ensures r.Some? ==> k <= r.value < |args| && Matches(p, args[r.value])
    ensures r.Some? ==> forall j :: k <= j < r.value ==> !Matches(p, args[j])
    ensures r.None? ==> forall j :: k <= j < |args| ==> !Matches(p, args[j])
    decreases |args| - k
  {
    if k == |args| then None
    else if Matches(p, args[k]) then Some(k)
    else FirstMatchFrom(args, p, k + 1)
  }

  /** The tokens that match `p`, in argument order. */
  function Filter(args: seq<string>, p: Pattern): (r: seq<string>)
    ensures forall k :: 0 <= k < |r| ==> Matches(p, r[k])
    ensures forall x :: x in r <==> x in args && Matches(p, x)
    ensures |r| <= |args|
  {
    if args == [] then []
    else (if Matches(p, args[0]) then [args[0]] else []) + Filter(args[1..], p)
  }

  lemma {:induction false} FilterAppend(a: seq<string>, b: seq<string>, p: Pattern)
    ensures Filter(a + b, p) == Filter(a, p) + Filter(b, p)
  {
    if a != [] {
      var head := if Matches(p, a[0]) then [a[0]] else [];
      assert (a + b)[0] == a[0];
      assert (a + b)[1..] == a[1..] + b;
      assert Filter(a + b, p) == head + Filter(a[1..] + b, p);
      FilterAppend(a[1..], b, p);
      assert Filter(a, p) == head + Filter(a[1..], p);
    } else {
      assert a + b == b;
    }
  }

  /** The first match is the head of the filtered tokens; there is none exactly when none match. */
  lemma {:induction false} FirstMatchIsFilterHead(args: seq<string>, p: Pattern, k: nat)
    requires k <= |args|
    ensures FirstMatchFrom(args, p, k).None? <==> Filter(args[k..], p) == []
    ensures FirstMatchFrom(args, p, k).Some? ==>
              args[FirstMatchFrom(args, p, k).value] == Filter(args[k..], p)[0]
    decreases |args| - k
  {
    if k < |args| {
      var rest := args[k..];
      assert rest[0] == args[k];
      assert rest[1..] == args[k + 1..];
      var tail := Filter(args[k + 1..], p);
      FirstMatchIsFilterHead(args, p, k + 1);
      if Matches(p, args[k]) {
        assert Filter(rest, p) == [args[k]] + tail;
      } else {
        assert Filter(rest, p) == tail;
        assert FirstMatchFrom(args, p, k) == FirstMatchFrom(args, p, k + 1);
      }
    }
  }

  /** `Integer.parseInt` of a digit string: its value, or `None` where it overflows `int` and throws. */
  function ParseInt(s: string): (r: Option<int32>)
    requires IsNumeral(s)
    ensures r.Some? <==> DigitsValue(s) <= IntMax
    ensures r.Some? ==> r.value == DigitsValue(s) >= 0
  {
    var v := DigitsValue(s);
    if v <= IntMax then Some(v) else None
  }

  /** `Integer.parseInt` reads back every non-negative `int` that `"" + n` prints. */
  lemma ParseIntOfIntString(n: int32)
    requires n >= 0
    ensures ParseInt(IntString(n)) == Some(n)
  {
    DecimalStringRoundTrip(n);
  }

  /** The outcome of one scan: a value, or the token whose parse throws. */
  datatype Scanned = Value(n: int32) | Unparsable(token: string)

  /** The `parseInt` call on a matching token: its value, or the token itself when the parse throws. */
  function ParseToken(p: Pattern, token: string): (r: Scanned)
    requires Matches(p, token)
    ensures r.Value? <==> DigitsValue(Digits(p, token)) <= IntMax
    ensures r.Value? ==> r.n == DigitsValue(Digits(p, token))
    ensures r.Unparsable? ==> r.token == token
  {
    match ParseInt(Digits(p, token))
    case Some(v) => Value(v)
    case None => Unparsable(token)
  }

  /**
   * One of the two scans of `onCommand`: with the permission and at least
   * one argument, the first token matching the pattern is parsed; otherwise,
   * or when none matches, the configured default stands.
   */
  function Scan(args: seq<string>, allowed: bool, p: Pattern, default: int32): Scanned {
    if |args| > 0 && allowed then
      match FirstMatchFrom(args, p, 0)
      case None => Value(default)
      case Some(i) => ParseToken(p, args[i])
    else Value(default)
  }

  /**
   * A scan depends on the matching tokens alone, and of those on the first:
   * every other token is ignored.
   */
  lemma ScanUsesFirstMatch(args: seq<string>, allowed: bool, p: Pattern, default: int32)
    ensures var f := Filter(args, p);
            Scan(args, allowed, p, default) ==
              if allowed && f != [] then ParseToken(p, f[0]) else Value(default)
  {
    FirstMatchIsFilterHead(args, p, 0);
    assert args[0..] == args;
  }

  datatype Decision =
    | ShowHelp
    | DoReload
    | TooManyDice
    | TooManySides
    | NumberFormatError(token: string)
    | Roll(count: int32, sides: int32)

  predicate IsHelpToken(token: string) {
    EqualsIgnoreCase(token, "help") || EqualsIgnoreCase(token, "?")
  }

  predicate IsReloadToken(token: string) {
    EqualsIgnoreCase(token, "reload")
  }

  /** The arguments are the help or the (permitted) reload sub-command. */
  predicate IsSubCommand(perms: Perms, args: seq<string>) {
    |args| == 1 && (IsHelpToken(args[0]) || (perms.reload && IsReloadToken(args[0])))
  }

  /**
   * The maximum checks, count first, against the configured maxima whatever
   * the permissions, then the safety floors.
   */
  function Validate(cfg: Config, count: int32, sides: int32): (d: Decision)
    ensures d.TooManyDice? <==> count > cfg.maximumCount
    ensures d.TooManySides? <==> count <= cfg.maximumCount && sides > cfg.maximumSides
    ensures d.Roll? <==> count <= cfg.maximumCount && sides <= cfg.maximumSides
    ensures d.Roll? ==> d.count == Max(1, count) && d.sides == Max(2, sides)
  {
    if count > cfg.maximumCount then TooManyDice
    else if sides > cfg.maximumSides then TooManySides
    else Roll(Max(1, count), Max(2, sides))
  }

  /** What `onCommand` does with `args`, before it rolls. */
  function Decide(cfg: Config, perms: Perms, args: seq<string>): (d: Decision)
    ensures d.ShowHelp? <==> |args| == 1 && IsHelpToken(args[0])
    ensures d.DoReload? <==> |args| == 1 && perms.reload && IsReloadToken(args[0])
    ensures d.Roll? ==> 1 <= d.count <= Max(1, cfg.maximumCount)
    ensures d.Roll? ==> 2 <= d.sides <= Max(2, cfg.maximumSides)
  {
    if |args| == 1 && IsHelpToken(args[0]) then ShowHelp
    else if |args| == 1 && perms.reload && IsReloadToken(args[0]) then DoReload
    else
      match Scan(args, perms.multiple, CountPattern, cfg.defaultCount)
      case Unparsable(t) => NumberFormatError(t)
      case Value(count) =>
        match Scan(args, perms.anySides, SidesPattern, cfg.defaultSides)
        case Unparsable(t) => NumberFormatError(t)
        case Value(sides) => Validate(cfg, count, sides)
  }

  /**
   * Outside the two sub-commands the decision depends only on which tokens
   * are counts and which are numbers of sides, each in their own order.
   */
  lemma DecideByFilters(cfg: Config, perms: Perms, a: seq<string>, b: seq<string>)
    requires !IsSubCommand(perms, a) && !IsSubCommand(perms, b)
    requires Filter(a, CountPattern) == Filter(b, CountPattern)
    requires Filter(a, SidesPattern) == Filter(b, SidesPattern)
    ensures Decide(cfg, perms, a) == Decide(cfg, perms, b)
  {
    ScanUsesFirstMatch(a, perms.multiple, CountPattern, cfg.defaultCount);
    ScanUsesFirstMatch(b, perms.multiple, CountPattern, cfg.defaultCount);
    ScanUsesFirstMatch(a, perms.anySides, SidesPattern, cfg.defaultSides);
    ScanUsesFirstMatch(b, perms.anySides, SidesPattern, cfg.defaultSides);
  }

  /** Swapping two neighbouring tokens that do not both match `p` keeps the tokens that match `p`. */
  lemma SwapFilter(pre: seq<string>, x: string, y: string, post: seq<string>, p: Pattern)
    requires !(Matches(p, x) && Matches(p, y))
    ensures Filter(pre + [x, y] + post, p) == Filter(pre + [y, x] + post, p)
  {
    assert Filter([x, y], p) == Filter([y, x], p) by {
      assert [x, y] == [x] + [y] && [y, x] == [y] + [x];
      assert [x][1..] == [] && [y][1..] == [];
      FilterAppend([x], [y], p);
      FilterAppend([y], [x], p);
      assert Filter([x], p) == [] || Filter([y], p) == [];
    }
    FilterAppend(pre, [x, y], p);
    FilterAppend(pre, [y, x], p);
    FilterAppend(pre + [x, y], post, p);
    FilterAppend(pre + [y, x], post, p);
  }

  /**
   * Swapping two neighbouring tokens that are not both counts and not both
   * numbers of sides leaves the decision as it was.
   */
  lemma SwapIndependence(cfg: Config, perms: Perms, pre: seq<string>, x: string, y: string, post: seq<string>)
    requires !(Matches(CountPattern, x) && Matches(CountPattern, y))
    requires !(Matches(SidesPattern, x) && Matches(SidesPattern, y))
    ensures Decide(cfg, perms, pre + [x, y] + post) == Decide(cfg, perms, pre + [y, x] + post)
  {
    SwapFilter(pre, x, y, post, CountPattern);
    SwapFilter(pre, x, y, post, SidesPattern);
    DecideByFilters(cfg, perms, pre + [x, y] + post, pre + [y, x] + post);
  }

  /**
   * `reload` without the reload permission is an ordinary roll: the token is
   * neither a count nor a number of sides, so the defaults are validated.
   */
  lemma ReloadWithoutPermission(cfg: Config, perms: Perms, token: string)
    requires IsReloadToken(token) && !perms.reload
    ensures Decide(cfg, perms, [token]) == Validate(cfg, cfg.defaultCount, cfg.defaultSides)
  {
    assert ToLowerAscii(token[0]) == 'r';
    assert !Matches(CountPattern, token) && !Matches(SidesPattern, token);
  }

  /** Without the multiple-dice permission the count is the configured default, whatever the tokens. */
  lemma CountNeedsPermission(cfg: Config, perms: Perms, args: seq<string>)
    requires !IsSubCommand(perms, args) && !perms.multiple
    ensures Decide(cfg, perms, args) ==
              match Scan(args, perms.anySides, SidesPattern, cfg.defaultSides)
              case Unparsable(t) => NumberFormatError(t)
              case Value(sides) => Validate(cfg, cfg.defaultCount, sides)
  {
  }

  /**
   * Once a count token has been seen, what follows cannot change the count:
   * later numeric tokens are ignored.
   */
  lemma LaterTokensIgnored(args: seq<string>, more: seq<string>, allowed: bool, p: Pattern, default: int32)
    requires Filter(args, p) != []
    ensures Scan(args + more, allowed, p, default) == Scan(args, allowed, p, default)
  {
    FilterAppend(args, more, p);
    ScanUsesFirstMatch(args, allowed, p, default);
    ScanUsesFirstMatch(args + more, allowed, p, default);
  }

  /**
   * With the multiple-dice permission, the first all-digit token is the
   * count, whatever comes before or after it; the number of sides is
   * scanned on its own.
   */
  lemma CountFromFirstNumeral(cfg: Config, perms: Perms, args: seq<string>, sides: int32)
    requires !IsSubCommand(perms, args) && perms.multiple
    requires Filter(args, CountPattern) != [] && DigitsValue(Filter(args, CountPattern)[0]) <= IntMax
    requires Scan(args, perms.anySides, SidesPattern, cfg.defaultSides) == Value(sides)
    ensures Decide(cfg, perms, args) == Validate(cfg, DigitsValue(Filter(args, CountPattern)[0]), sides)
  {
    ScanUsesFirstMatch(args, perms.multiple, CountPattern, cfg.defaultCount);
  }

  /**
   * With the any-sides permission, the digits after the `d` of the first
   * `d<digits>` token are the number of sides.
   */
  lemma SidesFromFirstDToken(cfg: Config, perms: Perms, args: seq<string>, count: int32)
    requires !IsSubCommand(perms, args) && perms.anySides
    requires Filter(args, SidesPattern) != [] && DigitsValue(Filter(args, SidesPattern)[0][1..]) <= IntMax
    requires Scan(args, perms.multiple, CountPattern, cfg.defaultCount) == Value(count)
    ensures Decide(cfg, perms, args) == Validate(cfg, count, DigitsValue(Filter(args, SidesPattern)[0][1..]))
  {
    ScanUsesFirstMatch(args, perms.anySides, SidesPattern, cfg.defaultSides);
  }

  /**
   * A first count token too large for an `int` makes `Integer.parseInt`
   * throw, before any maximum is checked.
   */
  lemma OverflowingCountThrows(cfg: Config, perms: Perms, args: seq<string>)
    requires !IsSubCommand(perms, args) && perms.multiple
    requires Filter(args, CountPattern) != [] && DigitsValue(Filter(args, CountPattern)[0]) > IntMax
    ensures Decide(cfg, perms, args) == NumberFormatError(Filter(args, CountPattern)[0])
  {
    ScanUsesFirstMatch(args, perms.multiple, CountPattern, cfg.defaultCount);
  }

  /**
   * A first `d<digits>` token whose digits are too large for an `int` makes
   * `Integer.parseInt` throw once the count has been read, before any
   * maximum is checked.
   */
  lemma OverflowingSidesThrows(cfg: Config, perms: Perms, args: seq<string>, count: int32)
    requires !IsSubCommand(perms, args) && perms.anySides
    requires Filter(args, SidesPattern) != [] && DigitsValue(Filter(args, SidesPattern)[0][1..]) > IntMax
    requires Scan(args, perms.multiple, CountPattern, cfg.defaultCount) == Value(count)
    ensures Decide(cfg, perms, args) == NumberFormatError(Filter(args, SidesPattern)[0])
  {
    ScanUsesFirstMatch(args, perms.anySides, SidesPattern, cfg.defaultSides);
  }

  /** Only the first count token is parsed: a later overflowing one is ignored. */
  lemma LaterOverflowIgnored(perms: Perms)
    requires perms.multiple
    ensures Decide(DefaultConfig, perms, ["3", "99999999999"]) == Roll(3, 6)
  {
    assert Matches(CountPattern, "3");
    assert !Matches(SidesPattern, "3") && !Matches(SidesPattern, "99999999999");
    assert FirstMatchFrom(["3", "99999999999"], CountPattern, 0) == Some(0);
    assert FirstMatchFrom(["3", "99999999999"], SidesPattern, 0) == None;
    assert DigitsValue("3") == 3 by { assert "3"[..0] == ""; }
  }

  /** `roll 3 d10` and `roll d10 3` with both permissions and the default configuration roll three d10. */
  lemma ThreeD10EitherOrder(perms: Perms)
    requires perms.multiple && perms.anySides
    ensures Decide(DefaultConfig, perms, ["3", "d10"]) == Roll(3, 10)
    ensures Decide(DefaultConfig, perms, ["d10", "3"]) == Roll(3, 10)
  {
    assert "d10"[1..] == "10";
    assert Matches(CountPattern, "3") && !Matches(SidesPattern, "3");
    assert Matches(SidesPattern, "d10") && !Matches(CountPattern, "d10");
    assert DigitsValue("10") == 10 by {
      assert "10"[..1] == "1";
    }
  }

  /** A bare `roll` with the default configuration rolls one six-sided die, whatever the permissions. */
  lemma BareRollDefaults(perms: Perms)
    ensures Decide(DefaultConfig, perms, []) == Roll(1, 6)
  {
  }

  /**
   * `showHelp`: usage text chosen by the two permission bits, multiple-dice
   * as bit 0 and any-sides as bit 1, naming exactly the arguments the invoker
   * may give.
   */
  function Usage(perms: Perms): (text: string)
    ensures text == Red + "Usage: /roll"
                    + (if perms.multiple then " [count]" else "")
                    + (if perms.anySides then " [d<sides>]" else "")
  {
    var bits := (if perms.multiple then 1 else 0) + (if perms.anySides then 2 else 0);
    if bits == 1 then Red + "Usage: /roll [count]"
    else if bits == 2 then Red + "Usage: /roll [d<sides>]"
    else if bits == 3 then Red + "Usage: /roll [count] [d<sides>]"
    else Red + "Usage: /roll"
  }
}
