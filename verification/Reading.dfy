/**
 What a column stores for what it was given, type by type, and which error each shortcoming gets
 (app/services/validation.py `coerce_value`, `check_constraints`, `validate_record`).
 */
module Reading {
  import opened Common
  import opened Values
  import opened Strings
  import opened TypeSystem
  import opened Normalization
  import opened EntityModel
  import opened Validation

  // ---------------------------------------------------------------- whitespace around

  predicate AllSpace(s: string) {
    forall i :: 0 <= i < |s| ==> IsSpace(s[i])
  }

  lemma {:induction false} SpaceBefore(pre: string, s: string)
    requires AllSpace(pre)
    ensures StripLeft(pre + s) == StripLeft(s)
  {
    if pre == "" {
      assert pre + s == s;
    } else {
      assert (pre + s)[1..] == pre[1..] + s;
      SpaceBefore(pre[1..], s);
    }
  }

  lemma {:induction false} SpaceAfter(s: string, post: string)
    requires AllSpace(post)
    ensures StripRight(s + post) == StripRight(s)
  {
    if post == "" {
      assert s + post == s;
    } else {
      assert (s + post)[..|s + post| - 1] == s + post[..|post| - 1];
      SpaceAfter(s, post[..|post| - 1]);
    }
  }

  /** Whitespace around a text is stripped, whatever it is. */
  lemma StripSurrounded(pre: string, s: string, post: string)
    requires AllSpace(pre) && AllSpace(post)
    ensures Strip(pre + s + post) == Strip(s)
  {
    SpaceAfter(pre + s, post);
    StripsCommute(pre + s + post);
    StripsCommute(pre + s);
    SpaceBefore(pre, s);
  }

  /** Stripping takes whitespace off both ends and nothing else. */
  lemma StripMeans(s: string) returns (pre: string, post: string)
    ensures AllSpace(pre) && AllSpace(post) && s == pre + Strip(s) + post
    ensures Strip(s) != "" ==> !IsSpace(Strip(s)[0]) && !IsSpace(Strip(s)[|Strip(s)| - 1])
  {
    pre := LeftOf(s);
    post := RightOf(StripLeft(s));
    if Strip(s) != "" {
      StripsCommute(s);
    }
  }

  lemma {:induction false} LeftOf(s: string) returns (pre: string)
    ensures AllSpace(pre) && s == pre + StripLeft(s)
  {
    if s != "" && IsSpace(s[0]) {
      var rest := LeftOf(s[1..]);
      pre := [s[0]] + rest;
    } else {
      pre := "";
    }
  }

  lemma {:induction false} RightOf(s: string) returns (post: string)
    ensures AllSpace(post) && s == StripRight(s) + post
  {
    if s != "" && IsSpace(s[|s| - 1]) {
      var rest := RightOf(s[..|s| - 1]);
      post := rest + [s[|s| - 1]];
      assert s == s[..|s| - 1] + [s[|s| - 1]];
    } else {
      post := "";
    }
  }

  // ---------------------------------------------------------------- normalisation rules

  predicate Capital(c: char) {
    'A' <= c <= 'Z'
  }

  /** The letter in the other case; only for letters. */
  function Swapped(c: char): char
    requires IsLetter(c)
  {
    if Capital(c) then (c as int + 32) as char else (c as int - 32) as char
  }

  /** What the case rules make of the i-th character: title case looks at the one before. */
  predicate CasedAt(s: string, lower: string, upper: string, title: string, i: nat)
    requires i < |s| == |lower| == |upper| == |title|
  {
    if !IsLetter(s[i]) then lower[i] == upper[i] == title[i] == s[i]
    else
      && lower[i] == (if Capital(s[i]) then Swapped(s[i]) else s[i])
      && upper[i] == (if Capital(s[i]) then s[i] else Swapped(s[i]))
      && title[i] == if i > 0 && IsLetter(s[i - 1]) then lower[i] else upper[i]
  }

  /** Trimming, changing case and nullifying: what each rule makes of a text. */
  lemma RuleMeans(s: string, name: string)
    ensures ApplyRule(Trim, s) == Some(Strip(s)) && ApplyRule(UnknownRule(name), s) == Some(s)
    ensures ApplyRule(NullifyEmpty, s) == if AllSpace(s) then None else Some(s)
    ensures var lower, upper, title := ApplyRule(ToLower, s), ApplyRule(ToUpper, s), ApplyRule(ToTitle, s);
      && lower.Some? && upper.Some? && title.Some? && |lower.value| == |upper.value| == |title.value| == |s|
      && forall i :: 0 <= i < |s| ==> CasedAt(s, lower.value, upper.value, title.value, i)
  {
    TitleMeans(s, false);
    BlankMeans(s);
    forall i | 0 <= i < |s| ensures CasedAt(s, Recase(Lower, s), Recase(Upper, s), Title(s), i) {
      CaseMeans(s[i]);
      assert Title(s)[i] == CaseChar(if i > 0 && IsLetter(s[i - 1]) then Lower else Upper, s[i]);
    }
  }

  lemma CaseMeans(c: char)
    ensures !IsLetter(c) ==> CaseChar(Lower, c) == CaseChar(Upper, c) == c
    ensures IsLetter(c) ==>
      && CaseChar(Lower, c) == (if Capital(c) then Swapped(c) else c)
      && CaseChar(Upper, c) == (if Capital(c) then c else Swapped(c))
  {
  }

  lemma {:induction false} TitleMeans(s: string, afterLetter: bool)
    ensures |Title(s, afterLetter)| == |s|
    ensures forall i :: 0 <= i < |s| ==>
      Title(s, afterLetter)[i]
        == CaseChar(if (if i > 0 then IsLetter(s[i - 1]) else afterLetter) then Lower else Upper, s[i])
  {
    if s != "" {
      TitleMeans(s[1..], IsLetter(s[0]));
    }
  }

  lemma BlankMeans(s: string)
    ensures Blank(s) <==> AllSpace(s)
  {
    if AllSpace(s) {
      SpaceBefore(s, "");
      assert s + "" == s;
    }
    if Blank(s) {
      var pre, post := StripMeans(s);
      assert s == pre + post;
    }
  }

  /** Deleting characters looks at each one alone: digits stay, or letters, digits, underscores and whitespace. */
  lemma DeletionMeans(a: string, c: char, b: string)
    ensures ApplyRule(DigitsOnly, "") == ApplyRule(StripPunctuation, "") == Some("")
    ensures ApplyRule(DigitsOnly, a + [c] + b).value
         == ApplyRule(DigitsOnly, a).value + (if '0' <= c <= '9' then [c] else []) + ApplyRule(DigitsOnly, b).value
    ensures ApplyRule(StripPunctuation, a + [c] + b).value
         == ApplyRule(StripPunctuation, a).value
            + (if IsLetter(c) || '0' <= c <= '9' || c == '_' || IsSpace(c) then [c] else [])
            + ApplyRule(StripPunctuation, b).value
  {
    forall k: Class ensures Keep(k, a + [c] + b) == Keep(k, a) + (if Keeps(k, c) then [c] else []) + Keep(k, b) {
      KeepConcat(k, a + [c], b);
      KeepConcat(k, a, [c]);
      assert Keep(k, [c][1..]) == "";
    }
  }

  /** Collapsing turns each whole run of whitespace into one space and leaves a text without any alone. */
  lemma CollapsingMeans(a: string, run: string, b: string)
    requires run != "" && AllSpace(run) && (a == "" || !IsSpace(a[|a| - 1])) && (b == "" || !IsSpace(b[0]))
    ensures ApplyRule(CollapseWhitespace, a + run + b)
         == Some(ApplyRule(CollapseWhitespace, a).value + " " + ApplyRule(CollapseWhitespace, b).value)
    ensures (forall i :: 0 <= i < |a| ==> !IsSpace(a[i])) ==> ApplyRule(CollapseWhitespace, a) == Some(a)
  {
    CollapseApart(a, run + b);
    assert a + run + b == a + (run + b);
    assert (run + b)[1..] == run[1..] + b;
    SpaceBefore(run[1..], b);
    assert Collapse(run + b) == " " + Collapse(b);
    assert Collapse(a) + (" " + Collapse(b)) == Collapse(a) + " " + Collapse(b);
    if forall i :: 0 <= i < |a| ==> !IsSpace(a[i]) {
      CollapseVisible(a);
    }
  }

  lemma {:induction false} CollapseVisible(s: string)
    requires forall i :: 0 <= i < |s| ==> !IsSpace(s[i])
    ensures Collapse(s) == s
  {
    if s != "" {
      CollapseVisible(s[1..]);
    }
  }

  /** A text that ends visibly, or is empty, is collapsed apart from what follows. */
  lemma {:induction false} CollapseApart(a: string, b: string)
    requires a == "" || !IsSpace(a[|a| - 1])
    ensures Collapse(a + b) == Collapse(a) + Collapse(b)
    decreases |a|
  {
    if a == "" {
      assert a + b == b;
    } else {
      assert (a + b)[1..] == a[1..] + b;
      if IsSpace(a[0]) {
        StripLeftApart(a[1..], b);
        CollapseApart(StripLeft(a[1..]), b);
      } else {
        CollapseApart(a[1..], b);
      }
    }
  }

  lemma {:induction false} StripLeftApart(a: string, b: string)
    requires a != "" && !IsSpace(a[|a| - 1])
    ensures StripLeft(a + b) == StripLeft(a) + b
    ensures StripLeft(a) != "" && StripLeft(a)[|StripLeft(a)| - 1] == a[|a| - 1]
  {
    if IsSpace(a[0]) {
      assert (a + b)[1..] == a[1..] + b;
      StripLeftApart(a[1..], b);
    }
  }

  // ---------------------------------------------------------------- blank values

  /** Null and blank text are null in a column of any type. */
  lemma BlankReads(p: Platform, v: Value, t: LogicalType)
    requires v.Null? || (v.Text? && AllSpace(v.s))
    ensures Coerce(p, v, t) == Good(Null)
  {
    if v.Text? {
      SpaceBefore(v.s, "");
      assert v.s + "" == v.s;
    }
  }

  // ---------------------------------------------------------------- booleans

  /** A visible text in a boolean column: true, false, or an error. */
  lemma BooleanText(p: Platform, s: string)
    ensures var w := Recase(Lower, Strip(s));
      Coerce(p, Text(s), BooleanT)
        == if Strip(s) == "" then Good(Null)
           else if w in TRUTHY then Good(Bool(true))
           else if w in FALSY then Good(Bool(false))
           else Bad
  {
    hide TRUTHY, FALSY, Recase, Strip;
  }

  lemma TrueWords()
    ensures TRUTHY == {"true", "t", "yes", "y", "1", "on"}
  {
  }

  lemma FalseWords()
    ensures FALSY == {"false", "f", "no", "n", "0", "off"}
  {
  }

  /** No word is on both lists, and none is padded. */
  lemma ListedWords()
    ensures TRUTHY !! FALSY
    ensures forall w :: w in TRUTHY || w in FALSY ==> w != "" && Strip(w) == w
  {
    forall w | w in TRUTHY || w in FALSY ensures w != "" && Strip(w) == w {
      hide StripRight, StripLeft;
      assert w != "" && !IsSpace(w[0]) && !IsSpace(w[|w| - 1]);
      VisibleEnds(w);
    }
  }

  lemma VisibleEnds(s: string)
    requires s != "" && !IsSpace(s[0]) && !IsSpace(s[|s| - 1])
    ensures Strip(s) == s
  {
  }

  lemma ListedWord(p: Platform, pre: string, word: string, post: string, w: string)
    requires AllSpace(pre) && AllSpace(post) && Recase(Lower, word) == w && (w in TRUTHY || w in FALSY)
    ensures Coerce(p, Text(pre + word + post), BooleanT) == Good(Bool(w in TRUTHY))
  {
    hide TRUTHY, FALSY, Coerce, Recase, Strip;
    ListedWords();
    StripSurrounded(pre, word, post);
    RecaseStrip(Lower, word);
    BooleanText(p, pre + word + post);
    SameLength(Strip(word));
  }

  /** Each of the twelve words, in any letter case and with any whitespace around it, reads as its own value. */
  lemma BooleanWord(p: Platform, pre: string, word: string, post: string, w: string, b: bool)
    requires AllSpace(pre) && AllSpace(post) && Recase(Lower, word) == w
    requires w in if b then {"true", "t", "yes", "y", "1", "on"} else {"false", "f", "no", "n", "0", "off"}
    ensures Coerce(p, Text(pre + word + post), BooleanT) == Good(Bool(b))
  {
    hide TRUTHY, FALSY, Coerce, Recase, Strip;
    TrueWords();
    FalseWords();
    ListedWords();
    if b {
      assert w in TRUTHY;
    } else {
      assert w in FALSY;
    }
    ListedWord(p, pre, word, post, w);
  }

  lemma SameLength(s: string)
    ensures Recase(Lower, s) == "" <==> s == ""
  {
  }

  /** Any other visible text is an error. */
  lemma BooleanReads(p: Platform, s: string)
    ensures var w := Recase(Lower, Strip(s));
      Coerce(p, Text(s), BooleanT)
        == if Strip(s) == "" then Good(Null)
           else if w in {"true", "t", "yes", "y", "1", "on"} then Good(Bool(true))
           else if w in {"false", "f", "no", "n", "0", "off"} then Good(Bool(false))
           else Bad
  {
    BooleanText(p, s);
    TrueWords();
    FalseWords();
    hide TRUTHY, FALSY, Coerce, Recase, Strip;
  }

  /** A truth value is itself, and what Python prints for it reads back. */
  lemma BooleanPrinted(p: Platform, b: bool)
    ensures Coerce(p, Bool(b), BooleanT) == Good(Bool(b))
    ensures Coerce(p, Text(PyText(Bool(b))), BooleanT) == Good(Bool(b))
  {
    var word := if b then "True" else "False";
    assert PyText(Bool(b)) == word;
    assert Coerce(p, Bool(b), BooleanT) == Good(Bool(b)) by {
      hide Recase, Strip, TRUTHY, FALSY;
    }
    hide *;
    assert "" + word + "" == word;
    PrintedWords();
    BooleanWord(p, "", word, "", if b then "true" else "false", b);
  }

  lemma PrintedWords()
    ensures Recase(Lower, "True") == "true" && Recase(Lower, "False") == "false"
    ensures AllSpace("")
  {
  }

  // ---------------------------------------------------------------- texts

  /** A visible text is stored in a text column as it is; a number, as its decimal digits. */
  lemma TextReads(p: Platform, s: string, i: int, t: LogicalType)
    requires t in {StringT, TextT, UrlT, EnumT}
    ensures !AllSpace(s) ==> Coerce(p, Text(s), t) == Good(Text(s))
    ensures Coerce(p, Int(i), t) == Good(Text(IntText(i)))
  {
    if Strip(s) == "" {
      var pre, post := StripMeans(s);
    }
  }

  /** An e-mail column stores the address without the whitespace around it, and only an address. */
  lemma EmailReads(p: Platform, pre: string, s: string, post: string)
    requires AllSpace(pre) && AllSpace(post) && s != "" && !IsSpace(s[0]) && !IsSpace(s[|s| - 1])
    ensures Coerce(p, Text(pre + s + post), EmailT) == if p.isEmail(s) then Good(Text(s)) else Bad
  {
    StripSurrounded(pre, s, post);
  }

  // ---------------------------------------------------------------- whole numbers

  /** What fits the column's type both ways round zero. */
  predicate InRange(i: int, t: LogicalType) {
    (t.IntegerT? ==> -2_147_483_647 <= i <= 2_147_483_647)
    && (t.BigintT? ==> -9_223_372_036_854_775_807 <= i <= 9_223_372_036_854_775_807)
  }

  /** A whole number, or its decimal text with any whitespace around, is stored as that number if it is in range. */
  lemma NumberReads(p: Platform, i: int, t: LogicalType, pre: string, post: string)
    requires t in {IntegerT, BigintT} && AllSpace(pre) && AllSpace(post)
    ensures Coerce(p, Int(i), t) == if InRange(i, t) then Good(Int(i)) else Bad
    ensures Coerce(p, Text(pre + IntText(i) + post), t) == if InRange(i, t) then Good(Int(i)) else Bad
    ensures Coerce(p, Bool(true), t) == Good(Int(1)) && Coerce(p, Bool(false), t) == Good(Int(0))
  {
    hide IntText;
    StripSurrounded(pre, IntText(i), post);
    ParsePadded(pre, i, post);
    VisibleNumber(i);
  }

  lemma VisibleNumber(i: int)
    ensures Strip(IntText(i)) != ""
  {
    hide Decimal;
    DecimalDigits(if i < 0 then -i else i);
    var s := IntText(i);
    assert !IsSpace(s[0]) && !IsSpace(s[|s| - 1]);
  }

  lemma ParsePadded(pre: string, i: int, post: string)
    requires AllSpace(pre) && AllSpace(post)
    ensures ParseInt(pre + IntText(i) + post) == Some(i)
  {
    hide ParseWhole, IntText;
    StripSurrounded(pre, IntText(i), post);
    ParseWritten(i);
  }

  /** Commas anywhere in the text are ignored. */
  lemma CommasIgnored(s: string, t: string)
    requires WithoutCommas(Strip(s)) == WithoutCommas(Strip(t))
    ensures ParseInt(s) == ParseInt(t)
  {
  }

  lemma {:induction false} WithoutCommasMeans(a: string, b: string)
    ensures WithoutCommas(a + "," + b) == WithoutCommas(a + b)
  {
    if a == "" {
      assert a + "," + b == "," + b && ("," + b)[1..] == b && a + b == b;
    } else {
      assert (a + "," + b)[1..] == a[1..] + "," + b && (a + b)[1..] == a[1..] + b;
      WithoutCommasMeans(a[1..], b);
    }
  }

  /** Digits, with single underscores between them. */
  predicate Grouped(s: string) {
    && s != "" && IsDigit(s[0]) && IsDigit(s[|s| - 1])
    && (forall i :: 0 <= i < |s| ==> IsDigit(s[i]) || s[i] == '_')
    && (forall i :: 0 <= i < |s| - 1 && s[i] == '_' ==> s[i + 1] != '_')
  }

  /** Nothing but grouped digits reads as a number. */
  lemma {:induction false} DigitsRead(s: string)
    ensures ParseDigits(s).Some? <==> Grouped(s)
  {
    if s != "" && IsDigit(s[|s| - 1]) && |s| > 1 {
      var rest := s[..|s| - 1];
      var body := if rest[|rest| - 1] == '_' then rest[..|rest| - 1] else rest;
      DigitsRead(body);
      if Grouped(body) {
        assert forall i :: 0 <= i < |body| ==> s[i] == body[i];
        assert |body| < |s| - 1 ==> s[|s| - 2] == '_';
      }
      if Grouped(s) {
        assert body != "";
        assert forall i :: 0 <= i < |body| ==> body[i] == s[i];
      }
    }
  }

  /** A text reads as a whole number exactly when, without blanks and commas, it is digits after at most one sign. */
  lemma TextIsNumber(s: string)
    ensures var bare := Strip(WithoutCommas(Strip(s)));
      ParseInt(s).Some? <==>
        bare != "" && Grouped(if bare[0] == '-' || bare[0] == '+' then bare[1..] else bare)
  {
    var bare := Strip(WithoutCommas(Strip(s)));
    if bare != "" {
      DigitsRead(bare);
      DigitsRead(bare[1..]);
    }
  }

  // ---------------------------------------------------------------- defaults

  /** A column that is given a value never gets the default, not even for a blank. */
  lemma GivenStored(p: Platform, a: Attribute, payload: Row)
    requires a.name in payload
    ensures var read := Coerce(p, Normalized(payload[a.name], a.rules), a.dataType);
      Stored(p, a, payload) == if read.Good? then read.value else Null
  {
    hide Coerce, Normalized;
  }

  /**
   A column that is left out is null, or its default read as the column's type: an e-mail default
   is stored without a look at it, any other default that does not read is dropped.
   */
  lemma AbsentStored(p: Platform, a: Attribute, payload: Row)
    requires a.name !in payload
    ensures a.fallback.None? || a.fallback == Some("") ==> Stored(p, a, payload) == Null
    ensures a.fallback.Some? && a.fallback.value != "" ==>
      var read := Coerce(p, Text(a.fallback.value), a.dataType);
      Stored(p, a, payload)
        == if read.Good? then read.value
           else if a.dataType.EmailT? then Text(Strip(a.fallback.value)) else Null
  {
  }

  // ---------------------------------------------------------------- errors

  /** The limit in force: the rule's, else the column's length; zero and none are no limit. */
  predicate TooLong(a: Attribute, s: string) {
    if a.checks.maxLength.Some? && a.checks.maxLength.value != 0 then |s| > a.checks.maxLength.value
    else a.length.Some? && a.length.value != 0 && |s| > a.length.value
  }

  predicate Patterned(a: Attribute) {
    a.checks.pattern.Some? && a.checks.pattern.value != ""
  }

  /** Each shortcoming of a value has its own error, reported under the attribute's name; nothing else is reported. */
  lemma FaultsMean(p: Platform, a: Attribute, v: Value, code: Code)
    ensures var number := if v.Int? then Some(v.i as real) else if v.Opaque? then p.number(v) else None;
      Fault(a.name, code) in ConstraintFaults(p, a, v) <==>
        match code
        case Required => v.Null? && a.required
        case MaxLength => v.Text? && TooLong(a, v.s)
        case MinLength =>
          v.Text? && a.checks.minLength.Some? && a.checks.minLength.value != 0 && |v.s| < a.checks.minLength.value
        case Regex => v.Text? && Patterned(a) && p.matches(a.checks.pattern.value, v.s) == NoMatch
        case BadRegex => v.Text? && Patterned(a) && p.matches(a.checks.pattern.value, v.s) == BadPattern
        case NotAllowed => !v.Null? && a.checks.allowed != [] && PyText(v) !in a.checks.allowed
        case BelowMin => number.Some? && a.checks.min.Some? && number.value < a.checks.min.value
        case AboveMax => number.Some? && a.checks.max.Some? && number.value > a.checks.max.value
        case BadUrl => !v.Null? && a.dataType.UrlT? && !p.isUrl(PyText(v))
        case _ => false
    ensures forall f :: f in ConstraintFaults(p, a, v) ==> f.field == a.name
  {
    hide PyText;
  }

  /** A value that does not read as its column's type is that one error and nothing else. */
  lemma MismatchMeans(p: Platform, a: Attribute, payload: Row)
    ensures Faults(p, a, payload)
         == if Coerce(p, Normalized(At(payload, a.name), a.rules), a.dataType).Bad? then {Fault(a.name, TypeMismatch)}
            else ConstraintFaults(p, a, Stored(p, a, payload))
  {
    hide Coerce, Normalized, ConstraintFaults;
  }
}
