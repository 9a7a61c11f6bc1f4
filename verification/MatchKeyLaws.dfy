/**
 The composite match key is unambiguous, and whatever the match-key search finds has the key
 it was searched by. The search is narrower than the key: a golden record can share the key
 and still not be found.
 */
module MatchKeyLaws {
  import opened Common
  import opened Values
  import opened Strings
  import opened EntityModel
  import opened Validation
  import opened Ledger
  import opened Matching

  predicate NoBar(s: string) {
    forall i :: 0 <= i < |s| ==> s[i] != '|'
  }

  lemma {:induction false} CollapseNoBar(s: string)
    requires NoBar(s)
    ensures NoBar(Collapse(s))
    decreases |s|
  {
    if s != "" {
      StripLeftSuffix(s[1..]);
      CollapseNoBar(if IsSpace(s[0]) then StripLeft(s[1..]) else s[1..]);
    }
  }

  lemma StripLeftSuffix(s: string)
    ensures StripLeft(s) == s[|s| - |StripLeft(s)|..]
  {
  }

  lemma ComponentNoBar(v: Value)
    ensures NoBar(Component(v))
  {
    CollapseNoBar(Keep(WordsAndSpace, Recase(Lower, Strip(PyText(v)))));
  }

  lemma BarSplits(a: string, b: string, c: string, d: string)
    requires a + "|" + b == c + "|" + d
    requires NoBar(b) && NoBar(d)
    ensures a == c && b == d
  {
    var s := a + "|" + b;
    assert s[|a|] == '|' && forall i :: |a| < i < |s| ==> s[i] == b[i - |a| - 1];
    assert s[|c|] == '|' && forall i :: |c| < i < |s| ==> s[i] == d[i - |c| - 1];
    assert |a| == |c|;
    assert s[..|a|] == a && s[..|c|] == c && s[|a| + 1..] == b && s[|c| + 1..] == d;
  }

  lemma {:induction false} JoinInjective(p: seq<string>, q: seq<string>)
    requires |p| == |q| && Join(p) == Join(q)
    requires forall i :: 0 <= i < |p| ==> NoBar(p[i]) && NoBar(q[i])
    ensures p == q
  {
    var n := |p|;
    if n > 1 {
      BarSplits(Join(p[..n - 1]), p[n - 1], Join(q[..n - 1]), q[n - 1]);
      JoinInjective(p[..n - 1], q[..n - 1]);
      assert p == p[..n - 1] + [p[n - 1]] && q == q[..n - 1] + [q[n - 1]];
    }
  }

  /** Two records have the same match key exactly when their normal forms agree attribute by attribute. */
  lemma MatchKeyUnambiguous(e: Entity, u: Row, v: Row)
    requires MatchKey(e, u).Some? && MatchKey(e, v).Some?
    ensures MatchKey(e, u) == MatchKey(e, v)
       <==> forall a :: a in KeyAttributes(e) ==> Component(At(u, a.name)) == Component(At(v, a.name))
  {
    hide Component, KeyAttributes, Join;
    var keys := KeyAttributes(e);
    var p, q := Components(u, keys), Components(v, keys);
    if Join(p) == Join(q) {
      forall i | 0 <= i < |keys|
        ensures NoBar(p[i]) && NoBar(q[i])
      {
        ComponentNoBar(At(u, keys[i].name));
        ComponentNoBar(At(v, keys[i].name));
      }
      JoinInjective(p, q);
      forall a | a in keys
        ensures Component(At(u, a.name)) == Component(At(v, a.name))
      {
        var i :| 0 <= i < |keys| && keys[i] == a;
        assert p[i] == q[i];
      }
    } else {
      assert p != q;
      var i :| 0 <= i < |keys| && p[i] != q[i];
      assert keys[i] in keys;
    }
  }

  /** The attribute is part of the match key: flagged for it or, if none of the entity is, of the business key. */
  predicate InKey(e: Entity, a: Attribute) {
    a in e.attributes && if exists b :: b in e.attributes && b.matchKey then a.matchKey else a.businessKey
  }

  lemma KeyAttributesMean(e: Entity)
    ensures forall a :: a in KeyAttributes(e) <==> InKey(e, a)
    ensures KeyAttributes(e) != [] <==> exists a :: a in e.attributes && InKey(e, a)
  {
    if MatchKeys(e) != [] {
      assert MatchKeys(e)[0] in MatchKeys(e);
    }
    if KeyAttributes(e) != [] {
      assert KeyAttributes(e)[0] in KeyAttributes(e);
    }
  }

  /**
   A record has a match key when its entity has attributes for one and the record a value for each of
   them; two records have the same one when those values have the same normal forms.
   */
  lemma MatchKeyMeans(e: Entity, u: Row, v: Row)
    ensures MatchKey(e, u).Some? <==>
      && (exists a :: a in e.attributes && InKey(e, a))
      && forall a :: a in e.attributes && InKey(e, a) ==> a.name in u && u[a.name] != Null
    ensures MatchKey(e, u).Some? && MatchKey(e, v).Some? ==>
      (MatchKey(e, u) == MatchKey(e, v)
       <==> forall a :: a in e.attributes && InKey(e, a) ==> Component(At(u, a.name)) == Component(At(v, a.name)))
  {
    KeyAttributesMean(e);
    assert forall a :: InKey(e, a) ==> a in e.attributes;
    hide Component, KeyAttributes, Join, InKey;
    if MatchKey(e, u).Some? && MatchKey(e, v).Some? {
      MatchKeyUnambiguous(e, u, v);
    }
  }

  /** Letter case and surrounding whitespace never tell two match keys apart. */
  lemma MatchKeyFolds(s: string, k: Case)
    ensures Component(Text(Recase(k, s))) == Component(Text(s))
    ensures Component(Text(Strip(s))) == Component(Text(s))
  {
    hide Strip, Keep, Collapse;
    RecaseStrip(k, s);
    RecaseTwice(Lower, k, Strip(s));
    StripTwice(s);
  }

  // ---------------------------------------------------------------- the search is sound

  lemma StripPgTrimLeft(s: string)
    ensures StripLeft(PgTrimLeft(s)) == StripLeft(s)
  {
  }

  lemma StripPgTrimRight(s: string)
    ensures StripRight(PgTrimRight(s)) == StripRight(s)
  {
  }

  lemma StripPgTrim(s: string)
    ensures Strip(PgTrimRight(PgTrimLeft(s))) == Strip(s)
  {
    var l := PgTrimLeft(s);
    StripPgTrimLeft(s);
    StripPgTrimRight(l);
    StripsCommute(l);
    StripsCommute(PgTrimRight(l));
  }

  function ColumnText(v: Value): string {
    match v
    case Text(s) => s
    case Int(i) => IntText(i)
    case Bool(b) => if b then "true" else "false"
    case Opaque(_, _, pg) => pg
    case Null => ""
  }

  /** PostgreSQL's and Python's trimming and lowering lead to the same normal form. */
  lemma TrimmedAlike(text: string, t: string)
    requires Recase(Lower, PgTrimRight(PgTrimLeft(text))) == Recase(Lower, Strip(t))
    ensures Recase(Lower, Strip(text)) == Recase(Lower, Strip(t))
  {
    var trimmed := PgTrimRight(PgTrimLeft(text));
    hide PgTrimRight, PgTrimLeft, Strip, Recase;
    calc {
      Recase(Lower, Strip(text));
      { StripPgTrim(text); }
      Recase(Lower, Strip(trimmed));
      { RecaseStrip(Lower, trimmed); }
      Strip(Recase(Lower, trimmed));
      { RecaseStrip(Lower, Strip(t)); }
      Recase(Lower, Strip(Strip(t)));
      { StripTwice(t); }
      Recase(Lower, Strip(t));
    }
  }

  lemma BothTexts(v: Value)
    requires !v.Opaque? && !v.Null?
    ensures Recase(Lower, Strip(ColumnText(v))) == Recase(Lower, Strip(PyText(v)))
  {
    hide Strip, Decimal;
    RecaseStrip(Lower, ColumnText(v));
    RecaseStrip(Lower, PyText(v));
    assert Recase(Lower, ColumnText(v)) == Recase(Lower, PyText(v));
  }

  /** A column that passes the search's test contributes what the searched value contributes. */
  lemma ProbeSound(golden: Value, v: Value)
    requires !golden.Opaque?
    requires ColumnProbe(golden) == Some(ValueProbe(v))
    ensures Component(golden) == Component(v)
  {
    hide PgTrimRight, PgTrimLeft, Strip, Recase, PyText, IntText, Keep, Collapse;
    TrimmedAlike(ColumnText(golden), PyText(v));
    BothTexts(golden);
  }

  /** Every golden record the match-key search finds has the match key of the incoming values. */
  lemma MatchSearchSound(e: Entity, live: map<RecordId, GoldenRow>, values: Row, id: RecordId)
    requires MatchKeys(e) != [] && HasAll(values, MatchKeys(e))
    requires id in ByMatchKey(e, live, values)
    requires forall a :: a in MatchKeys(e) ==> !At(live[id].values, a.name).Opaque?
    ensures MatchKey(e, live[id].values) == MatchKey(e, values) && MatchKey(e, values).Some?
  {
    hide Component, ColumnProbe, ValueProbe, Join, MatchKeys;
    var keys, golden := MatchKeys(e), live[id].values;
    assert SameProbe(keys, values, golden);
    forall a | a in keys
      ensures Component(At(golden, a.name)) == Component(At(values, a.name)) && !At(golden, a.name).Null?
    {
      ProbePresent(At(golden, a.name));
      ProbeSound(At(golden, a.name), At(values, a.name));
    }
    assert HasAll(golden, keys) && HasAll(values, keys);
    MatchKeyUnambiguous(e, golden, values);
  }

  lemma ProbePresent(v: Value)
    requires ColumnProbe(v).Some?
    ensures !v.Null?
  {
  }

  lemma Spelled()
    ensures Strip("co.") == "co." && Strip("co") == "co"
    ensures PgTrimRight(PgTrimLeft("co.")) == "co."
    ensures Recase(Lower, "co.") == "co." && Recase(Lower, "co") == "co"
  {
    assert StripLeft("co.") == "co." && StripRight("co.") == "co.";
    assert StripLeft("co") == "co" && StripRight("co") == "co";
  }

  /** The key folds punctuation away, the search does not: two texts with one key, one of them out of reach. */
  lemma MatchSearchMissesPunctuation()
    ensures Component(Text("co.")) == Component(Text("co"))
    ensures ColumnProbe(Text("co.")) != Some(ValueProbe(Text("co")))
  {
    Spelled();
    assert Keep(WordsAndSpace, "co.") == Keep(WordsAndSpace, "co") by {
      assert "co." == "co" + ".";
      KeepConcat(WordsAndSpace, "co", ".");
      assert "."[1..] == "";
    }
  }

  // ---------------------------------------------------------------- where search and key agree

  /** Word characters with single blanks between them. */
  predicate Plain(s: string) {
    && (forall i :: 0 <= i < |s| ==> IsWord(s[i]) || s[i] == ' ')
    && (forall i :: 0 <= i < |s| && s[i] == ' ' ==> 0 < i < |s| - 1 && s[i + 1] != ' ')
  }

  predicate SingleBlanks(s: string) {
    forall i :: 0 <= i < |s| && IsSpace(s[i]) ==> s[i] == ' ' && (i + 1 < |s| ==> !IsSpace(s[i + 1]))
  }

  lemma {:induction false} CollapseShrinks(s: string)
    ensures |Collapse(s)| <= |s|
    decreases |s|
  {
    if s != "" {
      CollapseShrinks(if IsSpace(s[0]) then StripLeft(s[1..]) else s[1..]);
    }
  }

  lemma {:induction false} CollapseFixed(s: string)
    ensures Collapse(s) == s <==> SingleBlanks(s)
    decreases |s|
  {
    if s != "" {
      var c, rest := s[0], s[1..];
      assert s == [c] + rest;
      CollapseFixed(rest);
      SingleBlanksCons(c, rest);
      if IsSpace(c) {
        var left := StripLeft(rest);
        assert Collapse(s) == " " + Collapse(left);
        hide Collapse, SingleBlanks, StripLeft;
        CollapseShrinks(left);
        LeadingSpace(rest);
        assert (" " + Collapse(left))[1..] == Collapse(left);
      } else {
        assert Collapse(s) == [c] + Collapse(rest);
        hide Collapse, SingleBlanks;
        assert ([c] + Collapse(rest))[1..] == Collapse(rest);
      }
    }
  }

  lemma LeadingSpace(s: string)
    ensures |StripLeft(s)| <= |s| && (|StripLeft(s)| == |s| <==> StripLeft(s) == s)
    ensures StripLeft(s) == s <==> s == "" || !IsSpace(s[0])
  {
    StripLeftSuffix(s);
  }

  lemma SingleBlanksCons(c: char, s: string)
    ensures SingleBlanks([c] + s) <==> SingleBlanks(s) && (IsSpace(c) ==> c == ' ' && (s == "" || !IsSpace(s[0])))
  {
    var all := [c] + s;
    assert all[0] == c && forall i :: 0 <= i < |s| ==> all[i + 1] == s[i];
    if SingleBlanks(all) {
      forall i | 0 <= i < |s| && IsSpace(s[i]) ensures s[i] == ' ' && (i + 1 < |s| ==> !IsSpace(s[i + 1])) {
        assert IsSpace(all[i + 1]);
        assert i + 1 < |s| ==> all[i + 2] == s[i + 1];
      }
    }
  }

  lemma {:induction false} KeepShrinks(s: string)
    ensures |Keep(WordsAndSpace, s)| <= |s|
    ensures |Keep(WordsAndSpace, s)| == |s| ==> Keep(WordsAndSpace, s) == s
  {
    if s != "" {
      KeepShrinks(s[1..]);
    }
  }

  lemma StripShrinks(s: string)
    ensures |Strip(s)| <= |s|
    ensures Strip(s) == s <==> |Strip(s)| == |s|
    ensures Strip(s) == s <==> s == "" || (!IsSpace(s[0]) && !IsSpace(s[|s| - 1]))
  {
    StripLeftSuffix(s);
  }

  /** A text is its own normal form, letter case aside, exactly when it is plain. */
  lemma PlainIff(s: string)
    ensures Collapse(Keep(WordsAndSpace, Recase(Lower, Strip(s)))) == Recase(Lower, s) <==> Plain(s)
  {
    hide Strip, Keep, Collapse;
    var t := Recase(Lower, Strip(s));
    var kept := Keep(WordsAndSpace, t);
    StripShrinks(s);
    KeepShrinks(t);
    CollapseShrinks(kept);
    CollapseFixed(t);
    if Collapse(kept) == Recase(Lower, s) {
      assert |s| == |t| == |kept|;
      assert kept == t && Strip(s) == s;
      assert forall i :: 0 <= i < |s| ==> Keeps(WordsAndSpace, t[i]) && t[i] == CaseChar(Lower, s[i]);
      PlainRecase(s);
    } else if Plain(s) {
      PlainRecase(s);
      assert s == "" || (IsWord(s[0]) && IsWord(s[|s| - 1]));
      assert Strip(s) == s;
      KeepFixed(WordsAndSpace, t);
      assert false;
    }
  }

  /** Lowering keeps classes, so plainness can be read off the lowered text. */
  lemma PlainRecase(s: string)
    ensures var t := Recase(Lower, s);
      Plain(s) <==> SingleBlanks(t) && (forall i :: 0 <= i < |t| ==> Keeps(WordsAndSpace, t[i]))
                    && (s == "" || (!IsSpace(s[0]) && !IsSpace(s[|s| - 1])))
  {
    var t := Recase(Lower, s);
    forall i | 0 <= i < |s|
      ensures (IsSpace(t[i]) <==> IsSpace(s[i])) && (IsWord(t[i]) <==> IsWord(s[i])) && (t[i] == ' ' <==> s[i] == ' ')
    {
    }
  }

  /** The value as the search takes it, and the golden column as it is compared, are plain. */
  predicate PlainValue(v: Value) {
    Plain(Strip(PyText(v)))
  }

  predicate PlainColumn(golden: Value) {
    Plain(PgTrimRight(PgTrimLeft(ColumnText(golden))))
  }

  lemma PlainValueIff(v: Value)
    ensures Component(v) == ValueProbe(v) <==> PlainValue(v)
  {
    hide Strip, Keep, Collapse, PyText, Plain;
    StripTwice(PyText(v));
    PlainIff(Strip(PyText(v)));
  }

  lemma PlainColumnIff(golden: Value)
    requires !golden.Opaque? && !golden.Null?
    ensures ColumnProbe(golden) == Some(Component(golden)) <==> PlainColumn(golden)
  {
    hide Strip, Keep, Collapse, PyText, Plain, PgTrimLeft, PgTrimRight, IntText;
    BothTexts(golden);
    StripPgTrim(ColumnText(golden));
    PlainIff(PgTrimRight(PgTrimLeft(ColumnText(golden))));
  }

  /**
   A golden column with the key component of a value, one of the two plain: the search finds it
   exactly when both are.
   */
  lemma ProbeExact(golden: Value, v: Value)
    requires !golden.Opaque? && !golden.Null? && Component(golden) == Component(v)
    requires PlainValue(v) || PlainColumn(golden)
    ensures ColumnProbe(golden) == Some(ValueProbe(v)) <==> PlainValue(v) && PlainColumn(golden)
  {
    hide Component, ColumnProbe, ValueProbe, PlainValue, PlainColumn;
    PlainValueIff(v);
    PlainColumnIff(golden);
  }

  /**
   The match-key search for plain values finds exactly the active golden records that have their
   match key and are plain in its columns; so a golden tier of plain texts is searched completely.
   */
  lemma MatchSearchExact(e: Entity, live: map<RecordId, GoldenRow>, values: Row, id: RecordId)
    requires MatchKeys(e) != [] && HasAll(values, MatchKeys(e))
    requires forall a :: a in MatchKeys(e) ==> PlainValue(At(values, a.name))
    requires id in live && !live[id].deleted
    requires forall a :: a in MatchKeys(e) ==> !At(live[id].values, a.name).Opaque?
    ensures id in ByMatchKey(e, live, values)
       <==> MatchKey(e, live[id].values) == MatchKey(e, values)
            && forall a :: a in MatchKeys(e) ==> PlainColumn(At(live[id].values, a.name))
  {
    hide Component, ColumnProbe, ValueProbe, Join, MatchKeys, PlainValue, PlainColumn;
    var keys, golden := MatchKeys(e), live[id].values;
    if id in ByMatchKey(e, live, values) {
      MatchSearchSound(e, live, values, id);
      assert SameProbe(keys, values, golden);
    }
    if MatchKey(e, golden) == MatchKey(e, values) {
      assert MatchKey(e, values).Some?;
      MatchKeyUnambiguous(e, golden, values);
      forall a | a in keys
        ensures ColumnProbe(At(golden, a.name)) == Some(ValueProbe(At(values, a.name)))
           <==> PlainColumn(At(golden, a.name))
      {
        ProbeExact(At(golden, a.name), At(values, a.name));
      }
    }
  }

  /** Without plainness nothing is safe: for every value there is a golden text with its key that the search misses. */
  lemma MatchSearchMisses(v: Value)
    ensures var golden := Text(ValueProbe(v) + ".");
      Component(golden) == Component(v) && ColumnProbe(golden) != Some(ValueProbe(v))
  {
    hide IntText, Keep, Collapse, Recase, Strip, PgTrimLeft, PgTrimRight;
    var t := ValueProbe(v);
    RecaseStrip(Lower, PyText(v));
    StripTwice(Recase(Lower, PyText(v)));
    RecaseAgain(Lower, Strip(PyText(v)));
    Dotted(t);
    KeepConcat(WordsAndSpace, t, ".");
    DotDropped();
    assert Keep(WordsAndSpace, t + ".") == Keep(WordsAndSpace, t);
    assert PyText(Text(t + ".")) == t + ".";
  }

  lemma Dotted(t: string)
    requires Strip(t) == t && Recase(Lower, t) == t
    ensures Strip(t + ".") == t + "." && Recase(Lower, t + ".") == t + "."
    ensures PgTrimRight(PgTrimLeft(t + ".")) == t + "."
  {
    StripShrinks(t);
    StripShrinks(t + ".");
    assert t == "" || (t + ".")[0] == t[0];
    PgTrimNothing(t + ".");
  }

  lemma DotDropped()
    ensures Keep(WordsAndSpace, ".") == ""
  {
    assert "."[1..] == "";
  }

  lemma PgTrimNothing(s: string)
    requires s != "" && s[0] != ' ' && s[|s| - 1] != ' '
    ensures PgTrimRight(PgTrimLeft(s)) == s
  {
  }
}
