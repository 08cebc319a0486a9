/**
 * Templates as text and placeholders, and what one placeholder's
 * `replaceAll` does to them. `formatString` replaces the five placeholders
 * in rank order; a template whose text has no brace, filled with values
 * that have none, comes out with each placeholder showing its own value.
 */
module Placeholders {
  import opened Text

  /** The five placeholders, in the order `formatString` substitutes them. */
  datatype Key = PlayerKey | ResultKey | CountKey | SidesKey | TotalKey

  /** The position of a placeholder's `replaceAll` among the five. */
  function Rank(k: Key): nat {
    match k
    case PlayerKey => 0
    case ResultKey => 1
    case CountKey => 2
    case SidesKey => 3
    case TotalKey => 4
  }

  function KeyText(k: Key): string {
    match k
    case PlayerKey => "{PLAYER}"
    case ResultKey => "{RESULT}"
    case CountKey => "{COUNT}"
    case SidesKey => "{SIDES}"
    case TotalKey => "{TOTAL}"
  }

  /** The five replacement strings. */
  datatype Fill = Fill(player: string, result: string, count: string, sides: string, total: string)

  function KeyValue(k: Key, f: Fill): string {
    match k
    case PlayerKey => f.player
    case ResultKey => f.result
    case CountKey => f.count
    case SidesKey => f.sides
    case TotalKey => f.total
  }

  /** A piece of a template: literal text or a placeholder. */
  datatype Part = Literal(text: string) | Hole(key: Key)

  function PartShown(part: Part, done: nat, f: Fill): string {
    match part
    case Literal(t) => t
    case Hole(k) => if Rank(k) < done then KeyValue(k, f) else KeyText(k)
  }

  /**
   * The template after the first `done` replacements: placeholders ranked
   * below `done` show their value, the others are still their own text.
   * With `done == 0` this is the template, with `done == 5` its filled-in form.
   */
  function Stage(parts: seq<Part>, done: nat, f: Fill): string {
    if parts == [] then "" else PartShown(parts[0], done, f) + Stage(parts[1..], done, f)
  }

  /** The template text the parts spell. */
  function Render(parts: seq<Part>): string {
    if parts == [] then "" else (match parts[0] case Literal(t) => t case Hole(k) => KeyText(k)) + Render(parts[1..])
  }

  /** Before any replacement the stage is the template itself, whatever the values. */
  lemma {:induction false} StageZeroIsRender(parts: seq<Part>, f: Fill)
    ensures Stage(parts, 0, f) == Render(parts)
  {
    if parts != [] {
      StageZeroIsRender(parts[1..], f);
    }
  }

  /** The stage of two templates one after the other is their stages one after the other. */
  lemma {:induction false} StageAppend(a: seq<Part>, b: seq<Part>, done: nat, f: Fill)
    ensures Stage(a + b, done, f) == Stage(a, done, f) + Stage(b, done, f)
  {
    if a == [] {
      assert a + b == b;
    } else {
      assert (a + b)[0] == a[0];
      assert (a + b)[1..] == a[1..] + b;
      StageAppend(a[1..], b, done, f);
    }
  }

  /** A stage from part `k` on is part `k` shown, then the stage from `k + 1` on. */
  lemma StageFrom(parts: seq<Part>, k: nat, done: nat, f: Fill)
    requires k < |parts|
    ensures Stage(parts[k..], done, f) == PartShown(parts[k], done, f) + Stage(parts[k + 1..], done, f)
  {
    assert parts[k..][1..] == parts[k + 1..];
  }

  predicate LiteralsBraceFree(parts: seq<Part>) {
    forall i :: 0 <= i < |parts| && parts[i].Literal? ==> BraceFree(parts[i].text)
  }

  /**
   * The replacement strings have no brace, except perhaps the player's name
   * when the template does not show it.
   */
  predicate FillSafe(parts: seq<Part>, f: Fill) {
    (BraceFree(f.player) || Hole(PlayerKey) !in parts) && ValuesBraceFree(f)
  }

  /** The replacement strings other than the player's name have no brace. */
  predicate ValuesBraceFree(f: Fill) {
    BraceFree(f.result) && BraceFree(f.count) && BraceFree(f.sides) && BraceFree(f.total)
  }

  /**
   * The `replaceAll` for the placeholder of rank `done` turns one part, shown
   * at stage `done`, into the same part shown at the next stage, and moves on.
   */
  lemma PartStep(part: Part, rest: string, done: nat, key: Key, f: Fill)
    requires part.Literal? ==> BraceFree(part.text)
    requires part == Hole(PlayerKey) ==> BraceFree(f.player)
    requires ValuesBraceFree(f) && Rank(key) == done
    ensures ReplaceAll(PartShown(part, done, f) + rest, KeyText(key), KeyValue(key, f))
            == PartShown(part, done + 1, f) + ReplaceAll(rest, KeyText(key), KeyValue(key, f))
  {
    var pat, rep := KeyText(key), KeyValue(key, f);
    var before, after := PartShown(part, done, f), PartShown(part, done + 1, f);
    match part
    case Literal(t) =>
      ReplaceAllSkipsBraceFree(t, rest, pat, rep);
    case Hole(k) =>
      if Rank(k) < done {
        assert before == after == KeyValue(k, f);
        ReplaceAllSkipsBraceFree(before, rest, pat, rep);
      } else if k == key {
        assert before == pat && after == rep;
        ReplaceAllAtFront(rest, pat, rep);
      } else {
        assert before == after == KeyText(k);
        ReplaceAllSkipsOtherPlaceholder(before, rest, pat, rep);
      }
  }

  /** What holds of a template's parts holds of those after the first. */
  lemma TailSafe(parts: seq<Part>, f: Fill)
    requires parts != [] && LiteralsBraceFree(parts) && FillSafe(parts, f)
    ensures LiteralsBraceFree(parts[1..]) && FillSafe(parts[1..], f)
  {
    forall i | 0 <= i < |parts[1..]| && parts[1..][i].Literal? ensures BraceFree(parts[1..][i].text) {
      assert parts[1..][i] == parts[i + 1];
    }
    if Hole(PlayerKey) in parts[1..] {
      var i :| 0 <= i < |parts[1..]| && parts[1..][i] == Hole(PlayerKey);
      assert parts[i + 1] == Hole(PlayerKey);
    }
  }

  /** The `replaceAll` for the placeholder of rank `done` takes the template from one stage to the next. */
  lemma {:induction false} StageStep(parts: seq<Part>, done: nat, key: Key, f: Fill)
    requires LiteralsBraceFree(parts) && FillSafe(parts, f) && Rank(key) == done
    ensures ReplaceAll(Stage(parts, done, f), KeyText(key), KeyValue(key, f)) == Stage(parts, done + 1, f)
  {
    if parts != [] {
      TailSafe(parts, f);
      StageStep(parts[1..], done, key, f);
      assert parts[0] in parts;
      PartStep(parts[0], Stage(parts[1..], done, f), done, key, f);
    }
  }

  /** The five `replaceAll` calls, in rank order, on a template with brace-free text and values. */
  lemma AllStages(parts: seq<Part>, f: Fill)
    requires LiteralsBraceFree(parts) && FillSafe(parts, f)
    ensures var s1 := ReplaceAll(Stage(parts, 0, f), "{PLAYER}", f.player);
            var s2 := ReplaceAll(s1, "{RESULT}", f.result);
            var s3 := ReplaceAll(s2, "{COUNT}", f.count);
            var s4 := ReplaceAll(s3, "{SIDES}", f.sides);
            ReplaceAll(s4, "{TOTAL}", f.total) == Stage(parts, 5, f)
  {
    var s0, s1, s2 := Stage(parts, 0, f), Stage(parts, 1, f), Stage(parts, 2, f);
    var s3, s4 := Stage(parts, 3, f), Stage(parts, 4, f);
    StageStep(parts, 0, PlayerKey, f);
    assert ReplaceAll(s0, "{PLAYER}", f.player) == s1;
    StageStep(parts, 1, ResultKey, f);
    assert ReplaceAll(s1, "{RESULT}", f.result) == s2;
    StageStep(parts, 2, CountKey, f);
    assert ReplaceAll(s2, "{COUNT}", f.count) == s3;
    StageStep(parts, 3, SidesKey, f);
    assert ReplaceAll(s3, "{SIDES}", f.sides) == s4;
    StageStep(parts, 4, TotalKey, f);
  }
}
