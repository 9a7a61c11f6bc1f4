/**
 The string operations the validator is built from, on ASCII: Python's `strip`, `lower`,
 `upper`, `title`, the regular-expression substitutions of app/services/validation.py and
 decimal notation. Beside each operation stand the laws the other modules rely on.
 */
module Strings {

  // ---------------------------------------------------------------- characters

  /** Characters that `str.strip` and the pattern `\s` agree to call whitespace. */
  predicate IsSpace(c: char) {
    c == ' ' || 9 <= c as int <= 13 || 28 <= c as int <= 31
  }

  predicate IsDigit(c: char) {
    '0' <= c <= '9'
  }

  predicate IsLetter(c: char) {
    'a' <= c <= 'z' || 'A' <= c <= 'Z'
  }

  /** The pattern `\w`. */
  predicate IsWord(c: char) {
    IsLetter(c) || IsDigit(c) || c == '_'
  }

  datatype Case = AsIs | Lower | Upper

  function CaseChar(k: Case, c: char): char {
    if k == Lower && 'A' <= c <= 'Z' then c - 'A' + 'a'
    else if k == Upper && 'a' <= c <= 'z' then c - 'a' + 'A'
    else c
  }

  // ---------------------------------------------------------------- operations

  function Recase(k: Case, s: string): (r: string)
    ensures |r| == |s| && forall i :: 0 <= i < |s| ==> r[i] == CaseChar(k, s[i])
  {
    seq(|s|, i requires 0 <= i < |s| => CaseChar(k, s[i]))
  }

  function StripLeft(s: string): (r: string)
    ensures |r| <= |s|
    ensures r == "" || !IsSpace(r[0])
  {
    if s != "" && IsSpace(s[0]) then StripLeft(s[1..]) else s
  }

  function StripRight(s: string): (r: string)
    ensures |r| <= |s| && r == s[..|r|]
    ensures r == "" || !IsSpace(r[|r| - 1])
  {
    if s != "" && IsSpace(s[|s| - 1]) then StripRight(s[..|s| - 1]) else s
  }

  function Strip(s: string): string {
    StripRight(StripLeft(s))
  }

  /** Every maximal run of whitespace becomes one space. */
  function Collapse(s: string): string
    decreases |s|
  {
    if s == "" then ""
    else if IsSpace(s[0]) then " " + Collapse(StripLeft(s[1..]))
    else [s[0]] + Collapse(s[1..])
  }

  datatype Class = Digits | WordsAndSpace

  predicate Keeps(k: Class, c: char) {
    match k
    case Digits => IsDigit(c)
    case WordsAndSpace => IsWord(c) || IsSpace(c)
  }

  /** What is left after deleting every character outside the class. */
  function Keep(k: Class, s: string): (r: string)
    ensures forall i :: 0 <= i < |r| ==> Keeps(k, r[i])
  {
    if s == "" then "" else (if Keeps(k, s[0]) then [s[0]] else []) + Keep(k, s[1..])
  }

  /** `str.title`: the first letter of every run of letters in upper case, the others in lower case. */
  function Title(s: string, afterLetter: bool := false): string {
    if s == "" then ""
    else [CaseChar(if afterLetter then Lower else Upper, s[0])] + Title(s[1..], IsLetter(s[0]))
  }

  predicate Blank(s: string) {
    Strip(s) == ""
  }

  // ---------------------------------------------------------------- laws of Recase

  lemma RecaseTwice(k: Case, j: Case, s: string)
    requires k != AsIs
    ensures Recase(k, Recase(j, s)) == Recase(k, s)
  {
  }

  lemma RecaseAgain(k: Case, s: string)
    ensures Recase(k, Recase(k, s)) == Recase(k, s)
  {
  }

  lemma RecaseAsIs(s: string)
    ensures Recase(AsIs, s) == s
  {
  }

  lemma RecaseStripLeft(k: Case, s: string)
    ensures StripLeft(Recase(k, s)) == Recase(k, StripLeft(s))
  {
    if s != "" {
      assert Recase(k, s)[1..] == Recase(k, s[1..]);
    }
  }

  lemma RecaseStripRight(k: Case, s: string)
    ensures StripRight(Recase(k, s)) == Recase(k, StripRight(s))
  {
    if s != "" {
      assert Recase(k, s)[..|s| - 1] == Recase(k, s[..|s| - 1]);
    }
  }

  lemma RecaseStrip(k: Case, s: string)
    ensures Strip(Recase(k, s)) == Recase(k, Strip(s))
  {
    RecaseStripLeft(k, s);
    RecaseStripRight(k, StripLeft(s));
  }

  lemma {:induction false} RecaseCollapse(k: Case, s: string)
    ensures Collapse(Recase(k, s)) == Recase(k, Collapse(s))
    decreases |s|
  {
    if s != "" {
      var rest := if IsSpace(s[0]) then StripLeft(s[1..]) else s[1..];
      assert Recase(k, s)[1..] == Recase(k, s[1..]);
      RecaseStripLeft(k, s[1..]);
      RecaseCollapse(k, rest);
      assert IsSpace(s[0]) <==> IsSpace(Recase(k, s)[0]);
    }
  }

  lemma KeepDigitsRecase(k: Case, s: string)
    ensures Keep(Digits, Recase(k, s)) == Keep(Digits, s)
  {
    if s != "" {
      assert Recase(k, s)[1..] == Recase(k, s[1..]);
    }
  }

  // ---------------------------------------------------------------- laws of Strip

  lemma StripRightCons(c: char, s: string)
    ensures StripRight([c] + s) == if StripRight(s) == "" && IsSpace(c) then "" else [c] + StripRight(s)
  {
    if s != "" && IsSpace(s[|s| - 1]) {
      assert ([c] + s)[..|s|] == [c] + s[..|s| - 1];
    } else if s == "" {
      assert [c] + s == [c] && [c][..0] == "";
    }
  }

  /** Stripping the right end of a text that starts with a visible character keeps that start. */
  lemma StripRightKeepsHead(s: string)
    requires s != "" && !IsSpace(s[0])
    ensures StripRight(s) != "" && StripRight(s)[0] == s[0]
  {
    assert s == [s[0]] + s[1..];
    StripRightCons(s[0], s[1..]);
  }

  lemma StripTwice(s: string)
    ensures Strip(Strip(s)) == Strip(s)
  {
    var l := StripLeft(s);
    if l != "" {
      StripRightKeepsHead(l);
    }
  }

  lemma StripCollapseLeft(s: string)
    ensures StripLeft(Collapse(s)) == Collapse(StripLeft(s))
    decreases |s|
  {
    if s != "" && IsSpace(s[0]) {
      StripCollapseLeft(StripLeft(s[1..]));
      assert Collapse(s)[1..] == Collapse(StripLeft(s[1..]));
    }
  }

  lemma {:induction false} StripsCommute(s: string)
    ensures StripLeft(StripRight(s)) == StripRight(StripLeft(s))
    ensures StripRight(s) == "" <==> StripRight(StripLeft(s)) == ""
  {
    if s != "" && IsSpace(s[0]) {
      StripsCommute(s[1..]);
      assert s == [s[0]] + s[1..];
      StripRightCons(s[0], s[1..]);
    } else if s != "" {
      StripRightKeepsHead(s);
    }
  }

  lemma {:induction false} StripCollapseRight(s: string)
    ensures StripRight(Collapse(s)) == Collapse(StripRight(s))
    decreases |s|
  {
    if s != "" {
      var rest := s[1..];
      assert s == [s[0]] + rest;
      StripRightCons(s[0], rest);
      if IsSpace(s[0]) {
        StripCollapseRight(StripLeft(rest));
        StripRightCons(' ', Collapse(StripLeft(rest)));
        StripsCommute(rest);
      } else {
        StripCollapseRight(rest);
        StripRightCons(s[0], Collapse(rest));
      }
    }
  }

  lemma StripCollapse(s: string)
    ensures Strip(Collapse(s)) == Collapse(Strip(s))
  {
    StripCollapseLeft(s);
    StripCollapseRight(StripLeft(s));
  }

  lemma {:induction false} CollapseTwice(s: string)
    ensures Collapse(Collapse(s)) == Collapse(s)
    decreases |s|
  {
    if s != "" {
      var rest := if IsSpace(s[0]) then StripLeft(s[1..]) else s[1..];
      CollapseTwice(rest);
      assert Collapse(s)[1..] == Collapse(rest);
      if IsSpace(s[0]) {
        StripCollapseLeft(rest);
      }
    }
  }

  // ---------------------------------------------------------------- laws of Keep

  lemma KeepConcat(k: Class, a: string, b: string)
    ensures Keep(k, a + b) == Keep(k, a) + Keep(k, b)
  {
    if a == "" {
      assert a + b == b;
    } else {
      assert (a + b)[1..] == a[1..] + b;
    }
  }

  lemma KeepFixed(k: Class, s: string)
    requires forall i :: 0 <= i < |s| ==> Keeps(k, s[i])
    ensures Keep(k, s) == s
  {
  }

  lemma KeepDigitsStripLeft(s: string)
    ensures Keep(Digits, StripLeft(s)) == Keep(Digits, s)
  {
  }

  lemma {:induction false} KeepDigitsStripRight(s: string)
    ensures Keep(Digits, StripRight(s)) == Keep(Digits, s)
  {
    if s != "" && IsSpace(s[|s| - 1]) {
      KeepDigitsStripRight(s[..|s| - 1]);
      assert s == s[..|s| - 1] + [s[|s| - 1]];
      KeepConcat(Digits, s[..|s| - 1], [s[|s| - 1]]);
    }
  }

  lemma KeepDigitsStrip(s: string)
    ensures Keep(Digits, Strip(s)) == Keep(Digits, s)
  {
    KeepDigitsStripLeft(s);
    KeepDigitsStripRight(StripLeft(s));
  }

  lemma {:induction false} KeepDigitsCollapse(s: string)
    ensures Keep(Digits, Collapse(s)) == Keep(Digits, s)
    decreases |s|
  {
    if s != "" {
      var rest := if IsSpace(s[0]) then StripLeft(s[1..]) else s[1..];
      KeepDigitsCollapse(rest);
      KeepDigitsStripLeft(s[1..]);
      assert Collapse(s)[1..] == Collapse(rest);
    }
  }

  /** A text of digits only is left alone by every other operation. */
  lemma {:induction false} DigitsFixed(s: string)
    requires forall i :: 0 <= i < |s| ==> IsDigit(s[i])
    ensures Strip(s) == s && Collapse(s) == s && Keep(Digits, s) == s
    ensures forall k :: Recase(k, s) == s
  {
    KeepFixed(Digits, s);
    if s != "" {
      DigitsFixed(s[1..]);
    }
  }
}
