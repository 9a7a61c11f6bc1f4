/**
 Normalisation rules applied to inbound text before coercion
 (app/services/validation.py, `normalize_value`).
 */
module Normalization {
  import opened Common
  import opened Values
  import opened Strings

  /** A configured rule. Names are matched without case; a name the platform does not know does nothing. */
  datatype Rule =
    | Trim | ToLower | ToUpper | ToTitle | CollapseWhitespace | StripPunctuation
    | DigitsOnly | NullifyEmpty | UnknownRule(name: string)

  /** One rule on a text; None once the text has been nullified. */
  function ApplyRule(r: Rule, s: string): Option<string> {
    match r
    case Trim => Some(Strip(s))
    case ToLower => Some(Recase(Lower, s))
    case ToUpper => Some(Recase(Upper, s))
    case ToTitle => Some(Title(s))
    case CollapseWhitespace => Some(Collapse(s))
    case StripPunctuation => Some(Keep(WordsAndSpace, s))
    case DigitsOnly => Some(Keep(Digits, s))
    case NullifyEmpty => if Blank(s) then None else Some(s)
    case UnknownRule(_) => Some(s)
  }

  /** The rules in order; nullifying stops the chain. */
  function NormalizedText(s: string, rules: seq<Rule>): Option<string> {
    if rules == [] then Some(s)
    else
      var before := NormalizedText(s, rules[..|rules| - 1]);
      if before.None? then None else ApplyRule(rules[|rules| - 1], before.value)
  }

  /** Only text is normalised; every other value passes unchanged. */
  function Normalized(v: Value, rules: seq<Rule>): Value {
    if !v.Text? then v
    else
      var out := NormalizedText(v.s, rules);
      if out.None? then Null else Text(out.value)
  }

  lemma {:induction false} NullifiedForGood(s: string, rules: seq<Rule>, n: nat)
    requires n <= |rules| && NormalizedText(s, rules[..n]).None?
    ensures NormalizedText(s, rules).None?
    decreases |rules|
  {
    if n < |rules| {
      assert rules[..|rules| - 1][..n] == rules[..n];
      NullifiedForGood(s, rules[..|rules| - 1], n);
    } else {
      assert rules[..n] == rules;
    }
  }

  method NormalizeValue(value: Value, rules: seq<Rule>) returns (result: Value)
    ensures result == Normalized(value, rules)
  {
    if !value.Text? || |rules| == 0 {
      return value;
    }
    var out := value.s;
    for i := 0 to |rules|
      invariant NormalizedText(value.s, rules[..i]) == Some(out)
    {
      assert rules[..i + 1][..i] == rules[..i];
      var next := ApplyRule(rules[i], out);
      if next.None? {
        NullifiedForGood(value.s, rules, i + 1);
        return Null;
      }
      out := next.value;
    }
    assert rules[..|rules|] == rules;
    return Text(out);
  }

  // ---------------------------------------------------------------- idempotence

  /** Rules whose lists normalise idempotently. */
  predicate Stable(r: Rule) {
    r in {Trim, ToLower, ToUpper, CollapseWhitespace, DigitsOnly} || r.UnknownRule?
  }

  /** What a list of stable rules amounts to, whatever its order and repetitions. */
  datatype Effect = Effect(strip: bool, collapse: bool, recase: Case, digits: bool)

  const NO_EFFECT := Effect(false, false, AsIs, false)

  function Add(e: Effect, r: Rule): Effect {
    match r
    case Trim => e.(strip := true)
    case ToLower => e.(recase := Lower)
    case ToUpper => e.(recase := Upper)
    case CollapseWhitespace => e.(collapse := true)
    case DigitsOnly => e.(digits := true)
    case _ => e
  }

  function EffectOf(rules: seq<Rule>): Effect {
    if rules == [] then NO_EFFECT else Add(EffectOf(rules[..|rules| - 1]), rules[|rules| - 1])
  }

  function Cleaned(e: Effect, s: string): string {
    if e.digits then Keep(Digits, s)
    else
      var stripped := if e.strip then Strip(s) else s;
      var collapsed := if e.collapse then Collapse(stripped) else stripped;
      Recase(e.recase, collapsed)
  }

  /** Dropping all but digits forgets everything the other rules did. */
  lemma DigitsAbsorb(e: Effect, s: string)
    ensures Keep(Digits, Cleaned(e, s)) == Keep(Digits, s)
  {
    if e.digits {
      DigitsFixed(Keep(Digits, s));
    } else {
      var stripped := if e.strip then Strip(s) else s;
      var collapsed := if e.collapse then Collapse(stripped) else stripped;
      KeepDigitsStrip(s);
      KeepDigitsCollapse(stripped);
      KeepDigitsRecase(e.recase, collapsed);
    }
  }

  /** Applying one more stable rule to a cleaned text cleans the original by one more rule. */
  lemma CleanedStep(e: Effect, r: Rule, s: string)
    requires Stable(r)
    ensures ApplyRule(r, Cleaned(e, s)) == Some(Cleaned(Add(e, r), s))
  {
    if r.DigitsOnly? {
      DigitsAbsorb(e, s);
    } else if e.digits {
      DigitsFixed(Keep(Digits, s));
    } else {
      var stripped := if e.strip then Strip(s) else s;
      var collapsed := if e.collapse then Collapse(stripped) else stripped;
      match r {
        case Trim =>
          RecaseStrip(e.recase, collapsed);
          StripCollapse(stripped);
          StripTwice(s);
        case CollapseWhitespace =>
          RecaseCollapse(e.recase, collapsed);
          CollapseTwice(stripped);
        case ToLower => RecaseTwice(Lower, e.recase, collapsed);
        case ToUpper => RecaseTwice(Upper, e.recase, collapsed);
        case UnknownRule(_) =>
      }
    }
  }

  lemma {:induction false} NormalizedIsCleaned(s: string, rules: seq<Rule>)
    requires forall r :: r in rules ==> Stable(r)
    ensures NormalizedText(s, rules) == Some(Cleaned(EffectOf(rules), s))
  {
    if rules == [] {
      RecaseAsIs(s);
    } else {
      NormalizedIsCleaned(s, rules[..|rules| - 1]);
      CleanedStep(EffectOf(rules[..|rules| - 1]), rules[|rules| - 1], s);
    }
  }

  lemma CleanedTwice(e: Effect, s: string)
    ensures Cleaned(e, Cleaned(e, s)) == Cleaned(e, s)
  {
    if e.digits {
      DigitsFixed(Keep(Digits, s));
    } else {
      var stripped := if e.strip then Strip(s) else s;
      var collapsed := if e.collapse then Collapse(stripped) else stripped;
      assert e.strip ==> Strip(collapsed) == collapsed by {
        StripTwice(s);
        StripCollapse(stripped);
      }
      assert e.collapse ==> Collapse(collapsed) == collapsed by {
        CollapseTwice(stripped);
      }
      RecaseFixed(e, collapsed);
    }
  }

  lemma RecaseFixed(e: Effect, s: string)
    requires !e.digits
    requires e.strip ==> Strip(s) == s
    requires e.collapse ==> Collapse(s) == s
    ensures Cleaned(e, Recase(e.recase, s)) == Recase(e.recase, s)
  {
    var t := Recase(e.recase, s);
    var stripped := if e.strip then Strip(t) else t;
    assert stripped == t by {
      RecaseStrip(e.recase, s);
    }
    var collapsed := if e.collapse then Collapse(stripped) else stripped;
    assert collapsed == t by {
      RecaseCollapse(e.recase, s);
    }
    RecaseAgain(e.recase, s);
  }

  /** Normalising a normalised value changes nothing, for any list of stable rules in any order. */
  lemma NormalizeIdempotent(v: Value, rules: seq<Rule>)
    requires forall r :: r in rules ==> Stable(r)
    ensures Normalized(Normalized(v, rules), rules) == Normalized(v, rules)
  {
    if v.Text? {
      NormalizedIsCleaned(v.s, rules);
      NormalizedIsCleaned(Cleaned(EffectOf(rules), v.s), rules);
      CleanedTwice(EffectOf(rules), v.s);
    }
  }

  /** Removing punctuation after trimming is not stable: it can uncover whitespace that the next pass trims. */
  lemma PunctuationIsNotStable()
    ensures var rules := [Trim, StripPunctuation];
      Normalized(Text(". x"), rules) == Text(" x") && Normalized(Text(" x"), rules) == Text("x")
  {
    var rules := [Trim, StripPunctuation];
    var a, b := ". x", " x";
    DottedKept();
    hide Strip, Keep;
    assert rules[..1] == [Trim] && [Trim][..0] == [];
    assert NormalizedText(a, [Trim]) == Some(a) && NormalizedText(b, [Trim]) == Some("x");
  }

  lemma DottedKept()
    ensures Strip(". x") == ". x" && Strip(" x") == "x"
    ensures Keep(WordsAndSpace, ". x") == " x" && Keep(WordsAndSpace, "x") == "x"
  {
    var a, b := ". x", " x";
    assert a[1..] == " x" && b[1..] == "x" && "x"[1..] == "";
    assert StripRight(a) == a && StripLeft(a) == a && StripLeft(b) == "x" && StripRight("x") == "x";
    assert Keep(WordsAndSpace, "x") == "x" && Keep(WordsAndSpace, b) == " x" && Keep(WordsAndSpace, a) == " x";
  }
}
