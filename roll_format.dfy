/**
 * `RollCommand.formatString` and `RollCommand.sum`: the template chosen by
 * the broadcast permission, and the five placeholders substituted one after
 * another.
 */
module RollFormat {
  import opened Wrappers
  import opened JavaInt
  import opened Text
  import opened Host
  import opened Placeholders

  /** The mathematical sum of the values, in roll order. */
  function Total(values: seq<int>): int {
    if values == [] then 0 else Total(values[..|values| - 1]) + values[|values| - 1]
  }

  /** The `int` that `sum` returns: the total, wrapped to 32 bits. */
  function JavaSum(values: seq<int32>): int32 {
    Wrap32(Total(values))
  }

  /** `sum`: adds the values up in an `int` accumulator, left to right. */
  method Sum(roll: array<int32>) returns (t: int32)
    ensures t == JavaSum(roll[..])
  {
    t := 0;
    var i := 0;
    while i < roll.Length
      invariant 0 <= i <= roll.Length
      invariant t == Wrap32(Total(roll[..i]))
    {
      assert roll[..i + 1][..i] == roll[..i];
      Wrap32Add(Total(roll[..i]), roll[i]);
      t := Wrap32(t + roll[i]);
      i := i + 1;
    }
    assert roll[..i] == roll[..];
  }

  /** Dice showing 1 to `sides` add up to between one and `sides` per die. */
  lemma {:induction false} TotalBounds(values: seq<int>, sides: int)
    requires forall i :: 0 <= i < |values| ==> 1 <= values[i] <= sides
    ensures |values| <= Total(values) <= |values| * sides
  {
    if values != [] {
      var n := |values| - 1;
      TotalBounds(values[..n], sides);
      assert (n + 1) * sides == n * sides + sides;
    }
  }

  /** When `count * sides` fits in an `int`, `sum` returns the true total. */
  lemma SumExactWhenSmall(values: seq<int32>, sides: int)
    requires forall i :: 0 <= i < |values| ==> 1 <= values[i] <= sides
    requires |values| * sides <= IntMax
    ensures JavaSum(values) == Total(values)
  {
    TotalBounds(values, sides);
  }

  /** `StringUtils.join(roll, ", ")`: each value in decimal, in roll order. */
  function ResultList(values: seq<int32>): string {
    Join(seq(|values|, i requires 0 <= i < |values| => IntString(values[i])), ", ")
  }

  /** The joined result list splits back into the values' decimal strings, in roll order. */
  lemma ResultListReadsBack(values: seq<int32>)
    requires |values| > 0
    ensures Split(ResultList(values), ", ") == seq(|values|, i requires 0 <= i < |values| => IntString(values[i]))
  {
    SplitOfJoin(seq(|values|, i requires 0 <= i < |values| => IntString(values[i])), ", ");
  }

  lemma ResultListBraceFree(values: seq<int32>)
    ensures BraceFree(ResultList(values))
  {
    JoinBraceFree(seq(|values|, i requires 0 <= i < |values| => IntString(values[i])), ", ");
  }

  /** The template for this invoker: the broadcast one with the broadcast permission, else the private one. */
  function SelectedTemplate(cfg: Config, perms: Perms): Option<string> {
    if perms.broadcast then cfg.broadcastMessage else cfg.privateMessage
  }

  /**
   * The five `replaceAll` calls in order. Each works on the output of the one
   * before, so text put in by an earlier placeholder is scanned by the later
   * ones.
   */
  function Substitute(template: string, name: string, values: seq<int32>, sides: int32): string {
    var s1 := ReplaceAll(template, "{PLAYER}", name);
    var s2 := ReplaceAll(s1, "{RESULT}", ResultList(values));
    var s3 := ReplaceAll(s2, "{COUNT}", IntString(|values|));
    var s4 := ReplaceAll(s3, "{SIDES}", IntString(sides));
    ReplaceAll(s4, "{TOTAL}", IntString(JavaSum(values)))
  }

  /**
   * `formatString`: no message for a null or empty template, otherwise the
   * substituted template. Colour codes are left as they are.
   */
  function FormatString(cfg: Config, perms: Perms, name: string, values: seq<int32>, sides: int32): (r: Option<string>)
    ensures r.None? <==> SelectedTemplate(cfg, perms) == None || SelectedTemplate(cfg, perms) == Some("")
    ensures r.Some? ==> r.value == Substitute(SelectedTemplate(cfg, perms).value, name, values, sides)
  {
    match SelectedTemplate(cfg, perms)
    case None => None
    case Some(t) => if |t| == 0 then None else Some(Substitute(t, name, values, sides))
  }

  /** The template depends on the broadcast permission alone. */
  lemma TemplateFollowsBroadcastOnly(cfg: Config, p1: Perms, p2: Perms, name: string, values: seq<int32>, sides: int32)
    requires p1.broadcast == p2.broadcast
    ensures FormatString(cfg, p1, name, values, sides) == FormatString(cfg, p2, name, values, sides)
  {
  }

  /** A template without placeholders (no brace at all) is sent as written. */
  lemma PlainTemplateUnchanged(template: string, name: string, values: seq<int32>, sides: int32)
    requires BraceFree(template)
    ensures Substitute(template, name, values, sides) == template
  {
    BraceFreeReplaceAll(template, "{PLAYER}", name);
    BraceFreeReplaceAll(template, "{RESULT}", ResultList(values));
    BraceFreeReplaceAll(template, "{COUNT}", IntString(|values|));
    BraceFreeReplaceAll(template, "{SIDES}", IntString(sides));
    BraceFreeReplaceAll(template, "{TOTAL}", IntString(JavaSum(values)));
  }

  /** What follows the placeholders `{COUNT}`, `{SIDES}` and `{TOTAL}` is brace-free and passes through. */
  lemma TailUnchanged(s: string, values: seq<int32>, sides: int32)
    requires BraceFree(s)
    ensures ReplaceAll(ReplaceAll(ReplaceAll(s, "{COUNT}", IntString(|values|)), "{SIDES}", IntString(sides)),
                       "{TOTAL}", IntString(JavaSum(values))) == s
  {
    BraceFreeReplaceAll(s, "{COUNT}", IntString(|values|));
    BraceFreeReplaceAll(s, "{SIDES}", IntString(sides));
    BraceFreeReplaceAll(s, "{TOTAL}", IntString(JavaSum(values)));
  }

  /** The values the five placeholders stand for: the name, the joined values, their number, the sides, the `int` sum. */
  function Fills(name: string, values: seq<int32>, sides: int32): Fill {
    Fill(name, ResultList(values), IntString(|values|), IntString(sides), IntString(JavaSum(values)))
  }

  /**
   * A template made of brace-free text and placeholders, shown to a player
   * whose name has no brace (or not showing the name): every placeholder
   * shows its own value and the text around it is kept.
   */
  lemma SubstituteParts(parts: seq<Part>, name: string, values: seq<int32>, sides: int32)
    requires LiteralsBraceFree(parts) && (BraceFree(name) || Hole(PlayerKey) !in parts)
    ensures Substitute(Render(parts), name, values, sides) == Stage(parts, 5, Fills(name, values, sides))
  {
    var f := Fills(name, values, sides);
    ResultListBraceFree(values);
    StageZeroIsRender(parts, f);
    AllStages(parts, f);
  }

  /** The same for the message `formatString` builds from a selected template given as parts. */
  lemma TemplateFilled(cfg: Config, perms: Perms, parts: seq<Part>, name: string, values: seq<int32>, sides: int32)
    requires LiteralsBraceFree(parts) && (BraceFree(name) || Hole(PlayerKey) !in parts)
    requires SelectedTemplate(cfg, perms) == Some(Render(parts)) && Render(parts) != ""
    ensures FormatString(cfg, perms, name, values, sides) == Some(Stage(parts, 5, Fills(name, values, sides)))
  {
    SubstituteParts(parts, name, values, sides);
  }

  /** The end both default templates share: `{RESULT} &7({COUNT}d{SIDES})`. */
  const TemplateTail: seq<Part> :=
    [Hole(ResultKey), Literal(" &7("), Hole(CountKey), Literal("d"), Hole(SidesKey), Literal(")")]

  /** The text both default templates end with. */
  const TailText := "{RESULT} &7({COUNT}d{SIDES})"

  // TailRendered, PrivateHeadJoined and BroadcastHeadJoined only join string
  // literals; they are separate lemmas so that those literal equalities are
  // proved once, apart from the proofs that also unfold the substitution.

  lemma TailRendered()
    ensures Render(TemplateTail) == TailText
  {
    var p := TemplateTail;
    assert p[1..][1..][1..][1..][1..][1..] == [];
  }

  /** The private default template is its head text followed by the shared tail. */
  lemma PrivateTemplateSplit()
    ensures DefaultConfig.privateMessage.value == "&4[&fDice&4] &fYou rolled " + TailText
  {
    assert DefaultConfig.privateMessage.value == "&4[&fDice&4] &fYou rolled {RESULT} &7({COUNT}d{SIDES})";
    PrivateHeadJoined();
  }

  lemma PrivateHeadJoined()
    ensures "&4[&fDice&4] &fYou rolled " + TailText == "&4[&fDice&4] &fYou rolled {RESULT} &7({COUNT}d{SIDES})"
  {
  }

  /** The broadcast default template is its head, the name placeholder, " rolled " and the shared tail. */
  lemma BroadcastTemplateSplit()
    ensures DefaultConfig.broadcastMessage.value == "&c[&fDice&c] &f" + "{PLAYER}" + " rolled " + TailText
  {
    assert DefaultConfig.broadcastMessage.value == "&c[&fDice&c] &f{PLAYER} rolled " + TailText;
    BroadcastHeadJoined();
  }

  lemma BroadcastHeadJoined()
    ensures "&c[&fDice&c] &f" + "{PLAYER}" + " rolled " == "&c[&fDice&c] &f{PLAYER} rolled "
  {
  }

  lemma TailFilled(f: Fill)
    ensures Stage(TemplateTail, 5, f) == f.result + (" &7(" + (f.count + ("d" + (f.sides + (")" + "")))))
  {
    var p := TemplateTail;
    assert p[6..] == [];
    StageFrom(p, 5, 5, f);
    StageFrom(p, 4, 5, f);
    StageFrom(p, 3, 5, f);
    StageFrom(p, 2, 5, f);
    StageFrom(p, 1, 5, f);
    StageFrom(p, 0, 5, f);
    assert p[0..] == p;
  }

  /** One literal part shows as its text at every stage. */
  lemma LiteralStage(t: string, done: nat, f: Fill)
    ensures Stage([Literal(t)], done, f) == t
  {
    assert [Literal(t)][1..] == [];
  }

  /** Head text followed by the shared tail, as parts. */
  function PrivateShape(head: string): seq<Part> {
    [Literal(head)] + TemplateTail
  }

  /** Head text, the name placeholder, middle text and the shared tail, as parts. */
  function BroadcastShape(head: string, middle: string): seq<Part> {
    [Literal(head), Hole(PlayerKey), Literal(middle)] + TemplateTail
  }

  lemma PrivateShapeRendered(head: string)
    ensures Render(PrivateShape(head)) == head + TailText
  {
    assert PrivateShape(head)[1..] == TemplateTail;
    TailRendered();
  }

  lemma BroadcastShapeRendered(head: string, middle: string)
    ensures Render(BroadcastShape(head, middle)) == head + "{PLAYER}" + middle + TailText
  {
    var parts := BroadcastShape(head, middle);
    var p1 := parts[1..];
    var p2 := p1[1..];
    assert p2[1..] == TemplateTail;
    TailRendered();
    assert Render(p2) == middle + TailText;
    assert Render(p1) == "{PLAYER}" + Render(p2);
    assert Render(parts) == head + Render(p1);
  }

  lemma PrivateShapeSafe(head: string)
    requires BraceFree(head)
    ensures LiteralsBraceFree(PrivateShape(head)) && Hole(PlayerKey) !in PrivateShape(head)
  {
    var parts := PrivateShape(head);
    forall i | 0 <= i < |parts| ensures parts[i].Literal? ==> BraceFree(parts[i].text)
      ensures parts[i] != Hole(PlayerKey)
    {
      if i > 0 { assert parts[i] == TemplateTail[i - 1]; }
    }
  }

  lemma BroadcastShapeSafe(head: string, middle: string)
    requires BraceFree(head) && BraceFree(middle)
    ensures LiteralsBraceFree(BroadcastShape(head, middle))
  {
    var parts := BroadcastShape(head, middle);
    forall i | 0 <= i < |parts| && parts[i].Literal? ensures BraceFree(parts[i].text) {
      if i > 2 { assert parts[i] == TemplateTail[i - 3]; }
    }
  }

  lemma PrivateShapeFilled(head: string, f: Fill)
    ensures Stage(PrivateShape(head), 5, f) == head + f.result + " &7(" + f.count + "d" + f.sides + ")"
  {
    LiteralStage(head, 5, f);
    StageAppend([Literal(head)], TemplateTail, 5, f);
    TailFilled(f);
  }

  lemma BroadcastShapeFilled(head: string, middle: string, f: Fill)
    ensures Stage(BroadcastShape(head, middle), 5, f)
            == head + f.player + middle + f.result + " &7(" + f.count + "d" + f.sides + ")"
  {
    var front := [Literal(head), Hole(PlayerKey), Literal(middle)];
    assert Stage(front, 5, f) == head + (f.player + (middle + "")) by {
      assert front[3..] == [];
      StageFrom(front, 2, 5, f);
      StageFrom(front, 1, 5, f);
      StageFrom(front, 0, 5, f);
      assert front[0..] == front;
    }
    StageAppend(front, TemplateTail, 5, f);
    TailFilled(f);
  }

  /**
   * A template of brace-free text followed by the shared tail: the values
   * joined by ", ", the number of dice and the sides take the placeholders' places.
   */
  lemma PrivateShapeMessage(head: string, name: string, values: seq<int32>, sides: int32)
    requires BraceFree(head)
    ensures Substitute(Render(PrivateShape(head)), name, values, sides)
            == head + ResultList(values) + " &7(" + IntString(|values|) + "d" + IntString(sides) + ")"
  {
    PrivateShapeSafe(head);
    SubstituteParts(PrivateShape(head), name, values, sides);
    PrivateShapeFilled(head, Fills(name, values, sides));
  }

  /**
   * Brace-free text, the name, more brace-free text and the shared tail, for
   * a brace-free name: the name and the values take the placeholders' places.
   */
  lemma BroadcastShapeMessage(head: string, middle: string, name: string, values: seq<int32>, sides: int32)
    requires BraceFree(head) && BraceFree(middle) && BraceFree(name)
    ensures Substitute(Render(BroadcastShape(head, middle)), name, values, sides)
            == head + name + middle + ResultList(values) + " &7(" + IntString(|values|) + "d" + IntString(sides) + ")"
  {
    BroadcastShapeSafe(head, middle);
    SubstituteParts(BroadcastShape(head, middle), name, values, sides);
    BroadcastShapeFilled(head, middle, Fills(name, values, sides));
  }

  /**
   * With the private default template, the invoker without the broadcast
   * permission is sent the values joined by ", ", then the number of dice
   * and the sides.
   */
  lemma PrivateDefaultMessage(cfg: Config, perms: Perms, name: string, values: seq<int32>, sides: int32)
    requires cfg.privateMessage == DefaultConfig.privateMessage && !perms.broadcast
    ensures FormatString(cfg, perms, name, values, sides)
            == Some("&4[&fDice&4] &fYou rolled " + ResultList(values) + " &7(" + IntString(|values|) + "d" + IntString(sides) + ")")
  {
    var head := "&4[&fDice&4] &fYou rolled ";
    PrivateTemplateSplit();
    PrivateShapeRendered(head);
    assert SelectedTemplate(cfg, perms) == Some(Render(PrivateShape(head)));
    PrivateShapeMessage(head, name, values, sides);
  }

  /**
   * With the broadcast default template, a player with the broadcast
   * permission whose name has no brace sends the name, the values joined by
   * ", ", the number of dice and the sides.
   */
  lemma BroadcastDefaultMessage(cfg: Config, perms: Perms, name: string, values: seq<int32>, sides: int32)
    requires cfg.broadcastMessage == DefaultConfig.broadcastMessage && perms.broadcast && BraceFree(name)
    ensures FormatString(cfg, perms, name, values, sides)
            == Some("&c[&fDice&c] &f" + name + " rolled " + ResultList(values) + " &7(" + IntString(|values|) + "d" + IntString(sides) + ")")
  {
    var head, middle := "&c[&fDice&c] &f", " rolled ";
    BroadcastTemplateSplit();
    BroadcastShapeRendered(head, middle);
    assert SelectedTemplate(cfg, perms) == Some(Render(BroadcastShape(head, middle)));
    BroadcastShapeMessage(head, middle, name, values, sides);
  }

  /** `{RESULT}` becomes the values joined by ", " in roll order. */
  lemma ResultPlaceholder(name: string, values: seq<int32>, sides: int32)
    ensures Substitute("{RESULT}", name, values, sides) == ResultList(values)
  {
    assert ReplaceAll("{RESULT}", "{PLAYER}", name) == "{RESULT}" by {
      assert "{RESULT}"[..8] != "{PLAYER}" by { assert "{RESULT}"[1] != "{PLAYER}"[1]; }
      assert "{RESULT}"[1..] == "RESULT}";
    }
    assert ReplaceAll("{RESULT}", "{RESULT}", ResultList(values)) == ResultList(values) by {
      assert "{RESULT}"[..8] == "{RESULT}";
      assert "{RESULT}"[8..] == "";
    }
    ResultListBraceFree(values);
    TailUnchanged(ResultList(values), values, sides);
  }

  /** `{COUNT}` becomes the number of values rolled. */
  lemma CountPlaceholder(name: string, values: seq<int32>, sides: int32)
    ensures Substitute("{COUNT}", name, values, sides) == IntString(|values|)
  {
    var c := IntString(|values|);
    assert ReplaceAll("{COUNT}", "{COUNT}", c) == c by {
      assert "{COUNT}"[..7] == "{COUNT}";
      assert "{COUNT}"[7..] == "";
    }
    BraceFreeReplaceAll(c, "{SIDES}", IntString(sides));
    BraceFreeReplaceAll(c, "{TOTAL}", IntString(JavaSum(values)));
  }

  /** `{TOTAL}` becomes the `int` sum of the values. */
  lemma TotalPlaceholder(name: string, values: seq<int32>, sides: int32)
    ensures Substitute("{TOTAL}", name, values, sides) == IntString(JavaSum(values))
  {
    var t := "{TOTAL}";
    assert ReplaceAll(t, "{COUNT}", IntString(|values|)) == t by {
      assert t[..7] != "{COUNT}" by { assert t[1] != "{COUNT}"[1]; }
      assert t[1..] == "TOTAL}";
    }
    assert ReplaceAll(t, "{SIDES}", IntString(sides)) == t by {
      assert t[..7] != "{SIDES}" by { assert t[1] != "{SIDES}"[1]; }
      assert t[1..] == "TOTAL}";
    }
    assert ReplaceAll(t, "{TOTAL}", IntString(JavaSum(values))) == IntString(JavaSum(values)) by {
      assert t[..7] == "{TOTAL}";
      assert t[7..] == "";
    }
  }

  /**
   * A template that is one placeholder alone shows that placeholder's value:
   * the name for `{PLAYER}` (a name without a brace), the joined values, their
   * number, the sides or the `int` sum.
   */
  lemma PlaceholderShows(key: Key, name: string, values: seq<int32>, sides: int32)
    requires key == PlayerKey ==> BraceFree(name)
    ensures Substitute(KeyText(key), name, values, sides) == KeyValue(key, Fills(name, values, sides))
  {
    var parts := [Hole(key)];
    var f := Fills(name, values, sides);
    assert parts[1..] == [];
    assert Render(parts) == KeyText(key);
    assert Stage(parts, 5, f) == KeyValue(key, f);
    SubstituteParts(parts, name, values, sides);
  }

  /** `{SIDES}` becomes the number of sides. */
  lemma SidesPlaceholder(name: string, values: seq<int32>, sides: int32)
    ensures Substitute("{SIDES}", name, values, sides) == IntString(sides)
  {
    PlaceholderShows(SidesKey, name, values, sides);
  }

  /** `{PLAYER}` becomes a brace-free name. */
  lemma PlayerPlaceholder(name: string, values: seq<int32>, sides: int32)
    requires BraceFree(name)
    ensures Substitute("{PLAYER}", name, values, sides) == name
  {
    PlaceholderShows(PlayerKey, name, values, sides);
  }

  /**
   * The substitutions are sequential: a name that spells a later
   * placeholder is itself substituted, so `{PLAYER}` for a player named
   * `{TOTAL}` shows the total.
   */
  lemma NameIsRescanned(values: seq<int32>, sides: int32)
    ensures Substitute("{PLAYER}", "{TOTAL}", values, sides) == IntString(JavaSum(values))
  {
    assert ReplaceAll("{PLAYER}", "{PLAYER}", "{TOTAL}") == "{TOTAL}" by {
      assert "{PLAYER}"[..8] == "{PLAYER}";
      assert "{PLAYER}"[8..] == "";
    }
    TotalPlaceholder("{TOTAL}", values, sides);
  }
}
