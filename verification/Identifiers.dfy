/**
 Names and quoting (app/services/identifiers.py, string defaults in app/services/ddl.py, filter
 escaping in app/services/ldap_auth.py): what is accepted as a name, and that every quoted or
 escaped text reads back as what it was made from.
 */
module Identifiers {
  import opened Common
  import opened Strings
  import opened TypeSystem

  // ---------------------------------------------------------------- accepted names

  const RESERVED := {
    "all", "analyse", "analyze", "and", "any", "array", "as", "asc", "authorization",
    "between", "binary", "both", "case", "cast", "check", "collate", "column",
    "constraint", "create", "cross", "current_date", "current_role", "current_time",
    "current_timestamp", "current_user", "default", "deferrable", "desc", "distinct",
    "do", "else", "end", "except", "false", "for", "foreign", "freeze", "from", "full",
    "grant", "group", "having", "ilike", "in", "initially", "inner", "intersect",
    "into", "is", "isnull", "join", "leading", "left", "like", "limit", "localtime",
    "localtimestamp", "natural", "not", "notnull", "null", "offset", "on", "only",
    "or", "order", "outer", "overlaps", "placing", "primary", "references", "returning",
    "right", "select", "session_user", "similar", "some", "symmetric", "table", "then",
    "to", "trailing", "true", "union", "unique", "user", "using", "verbose", "when",
    "where", "window", "with"
  }

  predicate IsLower(c: char) {
    'a' <= c <= 'z'
  }

  /** Lower snake case of at most 63 characters, starting with a letter. */
  predicate SnakeCase(s: string) {
    && 1 <= |s| <= 63 && IsLower(s[0])
    && forall i :: 0 <= i < |s| ==> IsLower(s[i]) || IsDigit(s[i]) || s[i] == '_'
  }

  /** The configured pattern: its `$` also matches before a final newline. */
  predicate IdentPattern(s: string) {
    SnakeCase(s) || (s != "" && s[|s| - 1] == '\n' && SnakeCase(s[..|s| - 1]))
  }

  /** The accepted form of a name, or None where the source raises. */
  function ValidIdent(name: string): Option<string> {
    var lowered := Recase(Lower, name);
    if name == "" || !IdentPattern(lowered) || lowered in RESERVED then None else Some(lowered)
  }

  function ValidColumn(name: string): Option<string> {
    var v := ValidIdent(name);
    if v.Some? && "mdm_" <= v.value then None else v
  }

  /** An accepted name is snake case, or snake case followed by one newline; nothing else gets through. */
  lemma AcceptedNames(name: string)
    ensures ValidIdent(name).Some? ==>
      var v := ValidIdent(name).value;
      v == Recase(Lower, name) && v !in RESERVED && (SnakeCase(v) || (v[|v| - 1] == '\n' && SnakeCase(v[..|v| - 1])))
    ensures SnakeCase(name) && name !in RESERVED ==> ValidIdent(name) == Some(name)
  {
    hide RESERVED;
    if SnakeCase(name) {
      assert Recase(Lower, name) == name;
    }
  }

  /** Accepting an accepted name again changes nothing. */
  lemma AcceptedAgain(name: string)
    ensures ValidIdent(name).Some? ==> ValidIdent(ValidIdent(name).value) == ValidIdent(name)
    ensures ValidColumn(name).Some? ==> ValidColumn(ValidColumn(name).value) == ValidColumn(name)
  {
    hide RESERVED;
    RecaseAgain(Lower, name);
  }

  /** The trailing newline does get through. */
  lemma NewlineAccepted(name: string)
    requires SnakeCase(name) && name + "\n" !in RESERVED
    ensures ValidIdent(name + "\n") == Some(name + "\n")
  {
    hide RESERVED;
    assert Recase(Lower, name + "\n") == name + "\n";
    assert (name + "\n")[..|name|] == name;
  }

  // ---------------------------------------------------------------- quoting

  /** Doubling every quote inside. */
  function Doubled(q: char, s: string): string {
    if s == "" then "" else (if s[0] == q then [q, q] else [s[0]]) + Doubled(q, s[1..])
  }

  function Quoted(q: char, s: string): string {
    [q] + Doubled(q, s) + [q]
  }

  function Qualified(schema: string, table: string): Option<string> {
    if schema == "" || table == "" then None else Some(Quoted('"', schema) + "." + Quoted('"', table))
  }

  datatype Scanned = Unclosed | Read(text: string, rest: string)

  /** How SQL reads on after an opening quote: a doubled quote is one, a single one ends the token. */
  function ScanBody(q: char, s: string): Scanned {
    if s == "" then Unclosed
    else if s[0] != q then
      match ScanBody(q, s[1..])
      case Unclosed => Unclosed
      case Read(text, rest) => Read([s[0]] + text, rest)
    else if |s| >= 2 && s[1] == q then
      match ScanBody(q, s[2..])
      case Unclosed => Unclosed
      case Read(text, rest) => Read([q] + text, rest)
    else Read("", s[1..])
  }

  function Scan(q: char, s: string): Scanned {
    if s == "" || s[0] != q then Unclosed else ScanBody(q, s[1..])
  }

  /** How a scan goes over one character of quoted text, and how it ends. */
  lemma ScanOne(q: char, c: char, more: string, text: string, rest: string)
    requires ScanBody(q, more) == Read(text, rest)
    ensures ScanBody(q, (if c == q then [q, q] else [c]) + more) == Read([c] + text, rest)
  {
    var all := (if c == q then [q, q] else [c]) + more;
    assert all[if c == q then 2 else 1..] == more;
  }

  lemma ScanEnd(q: char, rest: string)
    requires rest == "" || rest[0] != q
    ensures ScanBody(q, [q] + rest) == Read("", rest)
  {
    assert ([q] + rest)[1..] == rest;
  }

  lemma {:induction false} ScanDoubled(q: char, s: string, rest: string)
    requires rest == "" || rest[0] != q
    ensures ScanBody(q, Doubled(q, s) + [q] + rest) == Read(s, rest)
  {
    hide ScanBody;
    if s == "" {
      ScanEnd(q, rest);
      assert Doubled(q, s) + [q] + rest == [q] + rest;
    } else {
      ScanDoubled(q, s[1..], rest);
      var more := Doubled(q, s[1..]) + [q] + rest;
      ScanOne(q, s[0], more, s[1..], rest);
      assert Doubled(q, s) + [q] + rest == (if s[0] == q then [q, q] else [s[0]]) + more;
      assert s == [s[0]] + s[1..];
    }
  }

  /** Scanning quoted text recovers it and stops right behind it, whatever follows but another quote. */
  lemma ScanQuoted(q: char, s: string, rest: string)
    requires rest == "" || rest[0] != q
    ensures Scan(q, Quoted(q, s) + rest) == Read(s, rest)
  {
    ScanDoubled(q, s, rest);
    assert (Quoted(q, s) + rest)[1..] == Doubled(q, s) + [q] + rest;
  }

  /** Different schema and table names never render as the same qualified name. */
  lemma QualifiedInjective(schema: string, table: string, schema': string, table': string)
    requires Qualified(schema, table).Some? && Qualified(schema, table) == Qualified(schema', table')
    ensures schema == schema' && table == table'
  {
    var q := '"';
    var rest, rest' := "." + Quoted(q, table), "." + Quoted(q, table');
    ScanQuoted(q, schema, rest);
    ScanQuoted(q, schema', rest');
    assert Quoted(q, schema) + rest == Quoted(q, schema) + "." + Quoted(q, table);
    assert Quoted(q, schema') + rest' == Quoted(q, schema') + "." + Quoted(q, table');
    assert rest[1..] == Quoted(q, table) && rest'[1..] == Quoted(q, table');
    ScanQuoted(q, table, "");
    ScanQuoted(q, table', "");
    assert Quoted(q, table) + "" == Quoted(q, table) && Quoted(q, table') + "" == Quoted(q, table');
  }

  // ---------------------------------------------------------------- column defaults

  const FUNCTIONS: set<string> := {"now()", "current_timestamp", "current_date", "gen_random_uuid()"}

  /** The four defaults passed through as SQL, whatever the column's type. */
  predicate NamesFunction(raw: string) {
    Recase(Lower, Strip(raw)) in FUNCTIONS
  }

  /** A DEFAULT clause, unless the text is no default for its type; `isNumber` tells whether it reads as a number. */
  function RenderedDefault(t: LogicalType, raw: string, isNumber: bool): Option<string> {
    var lowered := Recase(Lower, Strip(raw));
    if NamesFunction(raw) then Some(lowered)
    else if t.IntegerT? || t.BigintT? || t.DecimalT? || t.FloatT? then if isNumber then Some(raw) else None
    else if t.BooleanT? then if lowered in {"true", "false"} then Some(lowered) else None
    else Some(Quoted('\'', raw))
  }

  /**
   A default of a text, date or other quoted type is a literal that reads back as the configured
   text, exactly when the text is not one of the four function names.
   */
  lemma StringDefaultReadsBack(t: LogicalType, raw: string, isNumber: bool, rest: string)
    requires !t.IntegerT? && !t.BigintT? && !t.DecimalT? && !t.FloatT? && !t.BooleanT?
    requires rest == "" || rest[0] != '\''
    ensures RenderedDefault(t, raw, isNumber).Some?
    ensures Scan('\'', RenderedDefault(t, raw, isNumber).value + rest) == Read(raw, rest) <==> !NamesFunction(raw)
  {
    hide ScanBody, Doubled, Recase, Strip, Quoted;
    if NamesFunction(raw) {
      var lowered := Recase(Lower, Strip(raw));
      assert lowered != "" && lowered[0] != '\'';
      assert (lowered + rest)[0] == lowered[0];
    } else {
      ScanQuoted('\'', raw, rest);
    }
  }

  // ---------------------------------------------------------------- search filters

  predicate Special(c: char) {
    c == '\\' || c == '*' || c == '(' || c == ')' || c == '\0' || c == '/'
  }

  function EscapeChar(c: char): string {
    if c == '\\' then "\\5c"
    else if c == '*' then "\\2a"
    else if c == '(' then "\\28"
    else if c == ')' then "\\29"
    else if c == '\0' then "\\00"
    else if c == '/' then "\\2f"
    else [c]
  }

  function Escaped(s: string): string {
    if s == "" then "" else Escaped(s[..|s| - 1]) + EscapeChar(s[|s| - 1])
  }

  method EscapeFilter(value: string) returns (result: string)
    ensures result == Escaped(value)
  {
    result := "";
    for i := 0 to |value|
      invariant result == Escaped(value[..i])
    {
      assert value[..i + 1][..i] == value[..i];
      result := result + EscapeChar(value[i]);
    }
    assert value[..|value|] == value;
  }

  function HexValue(c: char): Option<nat> {
    if IsDigit(c) then Some((c - '0') as nat)
    else if 'a' <= c <= 'f' then Some((c - 'a') as nat + 10)
    else if 'A' <= c <= 'F' then Some((c - 'A') as nat + 10)
    else None
  }

  /**
   An assertion value of section 3 of RFC 4515: a backslash introduces two hexadecimal digits, and
   NUL, parentheses and the asterisk stand for themselves nowhere. None for anything else.
   */
  function Decoded(s: string): Option<string> {
    if s == "" then Some("")
    else if s[0] == '\\' then
      if |s| < 3 || HexValue(s[1]).None? || HexValue(s[2]).None? then None
      else
        match Decoded(s[3..])
        case None => None
        case Some(more) => Some([(16 * HexValue(s[1]).value + HexValue(s[2]).value) as char] + more)
    else if s[0] == '*' || s[0] == '(' || s[0] == ')' || s[0] == '\0' then None
    else
      match Decoded(s[1..])
      case None => None
      case Some(more) => Some([s[0]] + more)
  }

  lemma DecodeChar(c: char, rest: string)
    requires Decoded(rest).Some?
    ensures Decoded(EscapeChar(c) + rest) == Some([c] + Decoded(rest).value)
  {
    var all := EscapeChar(c) + rest;
    if Special(c) {
      assert all[3..] == rest;
    } else {
      assert all[1..] == rest;
    }
  }

  lemma {:induction false} DecodeEscapedThen(s: string, rest: string)
    requires Decoded(rest).Some?
    ensures Decoded(Escaped(s) + rest) == Some(s + Decoded(rest).value)
    decreases |s|
  {
    hide Decoded, EscapeChar;
    if s == "" {
      assert Escaped(s) + rest == rest && s + Decoded(rest).value == Decoded(rest).value;
    } else {
      var n := |s| - 1;
      var before, last := Escaped(s[..n]), EscapeChar(s[n]);
      DecodeChar(s[n], rest);
      DecodeEscapedThen(s[..n], last + rest);
      assert (before + last) + rest == before + (last + rest);
      var more := Decoded(rest).value;
      assert s == s[..n] + [s[n]];
      assert (s[..n] + [s[n]]) + more == s[..n] + ([s[n]] + more);
    }
  }

  /** An escaped user name is a well-formed assertion value, and decodes to that user name. */
  lemma EscapeDecodes(s: string)
    ensures Decoded(Escaped(s)) == Some(s)
  {
    DecodeEscapedThen(s, "");
    assert Escaped(s) + "" == Escaped(s) && s + "" == s;
  }
}
