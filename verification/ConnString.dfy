/** Printing a PostgreSQL connection string from the environment, and reading it back by
    the keyword/value syntax of section 34.1.1.1 of the PostgreSQL 16 documentation. */
module ConnString {
  import opened GoStrings
  import opened Sequences

  type Environment = map<string, string>

  datatype Setting = Setting(key: string, value: string)

  const PARAMS: seq<(string, string)> := [
    ("host", "PGHOST"),
    ("port", "PGPORT"),
    ("user", "PGUSER"),
    ("password", "PGPASSWORD"),
    ("dbname", "PGDATABASE"),
    ("sslmode", "PGSSLMODE")
  ]

  /** A variable that is not set reads as empty. */
  function Getenv(env: Environment, name: string): string {
    if name in env then env[name] else ""
  }

  // ------------------------------------------------------------ printing

  function ReplaceAll(s: string, c: char, with: string): string {
    if s == "" then "" else (if s[0] == c then with else [s[0]]) + ReplaceAll(s[1..], c, with)
  }

  predicate NeedsQuotes(v: string) {
    exists i :: 0 <= i < |v| && v[i] in " '\\"
  }

  function PgEscape(v: string): string {
    if !NeedsQuotes(v) then v
    else
      var v1 := ReplaceAll(v, '\\', "\\\\");
      var v2 := ReplaceAll(v1, '\'', "\\'");
      "'" + v2 + "'"
  }

  function Join(parts: seq<string>, sep: string): string {
    if parts == [] then "" else if |parts| == 1 then parts[0] else parts[0] + sep + Join(parts[1..], sep)
  }

  function Printed(settings: seq<Setting>): seq<string> {
    seq(|settings|, i requires 0 <= i < |settings| => settings[i].key + "=" + PgEscape(settings[i].value))
  }

  function Print(settings: seq<Setting>): string {
    Join(Printed(settings), " ")
  }

  /** The parameters with a value, in order. */
  function Settings(env: Environment, params: seq<(string, string)>): seq<Setting> {
    if params == [] then []
    else
      var v := Getenv(env, params[0].1);
      (if v != "" then [Setting(params[0].0, v)] else []) + Settings(env, params[1..])
  }

  method BuildPostgresDSNFromEnv(env: Environment) returns (dsn: string)
    ensures dsn == Print(Settings(env, PARAMS))
  {
    var parts: seq<string> := [];
    ghost var done: seq<Setting> := [];
    assert PARAMS[0..] == PARAMS && done + Settings(env, PARAMS) == Settings(env, PARAMS);
    for i := 0 to |PARAMS|
      invariant Settings(env, PARAMS) == done + Settings(env, PARAMS[i..])
      invariant parts == Printed(done)
    {
      var p := PARAMS[i];
      var v := Getenv(env, p.1);
      ghost var rest := Settings(env, PARAMS[i + 1..]);
      SettingsStep(env, i, done);
      if v != "" {
        parts := parts + [p.0 + "=" + PgEscape(v)];
        done := done + [Setting(p.0, v)];
      }
    }
    assert PARAMS[|PARAMS|..] == [] && done + [] == done;
    if |parts| == 0 {
      return "";
    }
    dsn := Join(parts, " ");
  }

  lemma FirstSetting(env: Environment, params: seq<(string, string)>)
    requires params != []
    ensures var v := Getenv(env, params[0].1);
      Settings(env, params) == (if v != "" then [Setting(params[0].0, v)] else []) + Settings(env, params[1..])
  {
  }

  lemma SettingsStep(env: Environment, i: nat, done: seq<Setting>)
    requires i < |PARAMS|
    ensures var v := Getenv(env, PARAMS[i].1);
      done + Settings(env, PARAMS[i..])
        == (if v != "" then done + [Setting(PARAMS[i].0, v)] else done) + Settings(env, PARAMS[i + 1..])
  {
    hide PARAMS, Settings, Getenv;
    assert PARAMS[i..][1..] == PARAMS[i + 1..] && PARAMS[i..][0] == PARAMS[i];
    var v := Getenv(env, PARAMS[i].1);
    var rest := Settings(env, PARAMS[i + 1..]);
    FirstSetting(env, PARAMS[i..]);
    assert [] + rest == rest;
    assert done + ([Setting(PARAMS[i].0, v)] + rest) == done + [Setting(PARAMS[i].0, v)] + rest;
  }

  // ------------------------------------------------------------ reading

  /** Which characters count as whitespace between settings: it differs by reader. */
  type Spaces = char -> bool

  ghost predicate Sane(ws: Spaces) {
    && ws(' ')
    && (forall c | c in "=\\'" :: !ws(c))
    && (forall c | 'a' <= c <= 'z' :: !ws(c))
  }

  function SkipSpaces(ws: Spaces, s: string): (r: string)
    ensures |r| <= |s|
  {
    if s != "" && ws(s[0]) then SkipSpaces(ws, s[1..]) else s
  }

  /** A keyword and what follows it. */
  function TakeKey(ws: Spaces, s: string): (r: (string, string))
    ensures |r.0| + |r.1| == |s|
  {
    if s == "" || s[0] == '=' || ws(s[0]) then ("", s)
    else
      var (key, rest) := TakeKey(ws, s[1..]);
      ([s[0]] + key, rest)
  }

  /** A bare value ends at whitespace; a backslash makes the next character literal. */
  function TakeBare(ws: Spaces, s: string): (r: (string, string))
    ensures |r.1| <= |s|
    decreases |s|
  {
    if s == "" || ws(s[0]) then ("", s)
    else if s[0] != '\\' then
      var (v, rest) := TakeBare(ws, s[1..]);
      ([s[0]] + v, rest)
    else if |s| == 1 then ("", "")
    else
      var (v, rest) := TakeBare(ws, s[2..]);
      ([s[1]] + v, rest)
  }

  /** A quoted value, after its opening quote. */
  function TakeQuoted(s: string): (r: Option<(string, string)>)
    ensures r.Some? ==> |r.value.1| < |s|
    decreases |s|
  {
    if s == "" then None
    else if s[0] == '\'' then Some(("", s[1..]))
    else
      var escaped := s[0] == '\\';
      if escaped && |s| == 1 then None
      else
        var k := if escaped then 1 else 0;
        match TakeQuoted(s[k + 1..])
        case None => None
        case Some((v, rest)) => Some(([s[k]] + v, rest))
  }

  function TakeValue(ws: Spaces, s: string): (r: Option<(string, string)>)
    ensures r.Some? ==> |r.value.1| <= |s|
  {
    if s != "" && s[0] == '\'' then TakeQuoted(s[1..]) else Some(TakeBare(ws, s))
  }

  /** One setting, at a character that is no whitespace. */
  function TakeSetting(ws: Spaces, s: string): (r: Option<(Setting, string)>)
    ensures r.Some? ==> |r.value.1| < |s|
  {
    var (key, afterKey) := TakeKey(ws, s);
    var sign := SkipSpaces(ws, afterKey);
    if key == "" || sign == "" || sign[0] != '=' then None
    else
      match TakeValue(ws, SkipSpaces(ws, sign[1..]))
      case None => None
      case Some((v, rest)) => Some((Setting(key, v), rest))
  }

  /** All settings, or nothing where the text is malformed. */
  function Parse(ws: Spaces, text: string): Option<seq<Setting>>
    decreases |text|
  {
    var s := SkipSpaces(ws, text);
    if s == "" then Some([])
    else
      match TakeSetting(ws, s)
      case None => None
      case Some((first, rest)) =>
        match Parse(ws, rest)
        case None => None
        case Some(more) => Some([first] + more)
  }

  // ------------------------------------------------------------ escaping

  /** Escaping in one pass. */
  function Escaped(v: string): string {
    if v == "" then "" else (if v[0] in "'\\" then ['\\', v[0]] else [v[0]]) + Escaped(v[1..])
  }

  lemma {:induction false} ReplaceAppend(a: string, b: string, c: char, with: string)
    ensures ReplaceAll(a + b, c, with) == ReplaceAll(a, c, with) + ReplaceAll(b, c, with)
  {
    if a == "" {
      assert a + b == b;
    } else {
      ReplaceAppend(a[1..], b, c, with);
      assert (a + b)[0] == a[0] && (a + b)[1..] == a[1..] + b;
      var head := if a[0] == c then with else [a[0]];
      Assoc(head, ReplaceAll(a[1..], c, with), ReplaceAll(b, c, with));
    }
  }

  /** The two replacements, one after the other, amount to one pass. */
  lemma {:induction false} TwoReplacementsAreOnePass(v: string)
    ensures ReplaceAll(ReplaceAll(v, '\\', "\\\\"), '\'', "\\'") == Escaped(v)
  {
    if v != "" {
      TwoReplacementsAreOnePass(v[1..]);
      var head := if v[0] == '\\' then "\\\\" else [v[0]];
      ReplaceAppend(head, ReplaceAll(v[1..], '\\', "\\\\"), '\'', "\\'");
      ReplaceShort(head);
    }
  }

  lemma ReplaceShort(head: string)
    requires 1 <= |head| <= 2 && (|head| == 2 ==> head == "\\\\")
    ensures ReplaceAll(head, '\'', "\\'") == if head[0] == '\'' then "\\'" else head
  {
    assert ReplaceAll("", '\'', "\\'") == "";
    if |head| == 1 {
      assert head[1..] == "";
    } else {
      assert head[1..] == "\\" && "\\"[1..] == "";
      assert ReplaceAll("\\", '\'', "\\'") == "\\";
    }
  }

  /** The first character of a quoted value, as it was escaped. */
  lemma QuotedStep(c: char, tail: string)
    ensures TakeQuoted((if c in "'\\" then ['\\', c] else [c]) + tail)
      == match TakeQuoted(tail)
         case None => None
         case Some((v, rest)) => Some(([c] + v, rest))
  {
    if c in "'\\" {
      var s := ['\\', c] + tail;
      assert s[0] == '\\' && s[1] == c && s[2..] == tail;
    } else {
      var s := [c] + tail;
      assert s[0] == c && s[1..] == tail;
    }
  }

  /** Reading a quoted value gives back what was escaped. */
  lemma {:induction false} QuotedReadsBack(v: string, rest: string)
    ensures TakeQuoted(Escaped(v) + "'" + rest) == Some((v, rest))
  {
    if v == "" {
      assert Escaped(v) + "'" + rest == "'" + rest;
    } else {
      hide TakeQuoted;
      QuotedReadsBack(v[1..], rest);
      var head, tail := if v[0] in "'\\" then ['\\', v[0]] else [v[0]], Escaped(v[1..]) + "'" + rest;
      QuotedStep(v[0], tail);
      assert Escaped(v) == head + Escaped(v[1..]);
      assert Escaped(v) + "'" + rest == head + tail;
      assert [v[0]] + v[1..] == v;
    }
  }

  // ------------------------------------------------------------ one setting

  ghost predicate Word(key: string) {
    key != "" && forall i :: 0 <= i < |key| ==> 'a' <= key[i] <= 'z'
  }

  /** The value survives: it is quoted, or has nothing a reader stops at. */
  ghost predicate Survives(ws: Spaces, v: string) {
    ' ' in v || '\'' in v || '\\' in v || forall i :: 0 <= i < |v| ==> !ws(v[i])
  }

  /** What may follow a setting: nothing, or a space and, after it, a keyword. */
  ghost predicate Follows(ws: Spaces, after: string) {
    && (after != "" ==> after[0] == ' ')
    && var next := SkipSpaces(ws, after);
       next != "" ==> 'a' <= next[0] <= 'z'
  }

  lemma NeedsQuotesIff(v: string)
    ensures NeedsQuotes(v) <==> ' ' in v || '\'' in v || '\\' in v
  {
    assert forall c :: c in " '\\" <==> c == ' ' || c == '\'' || c == '\\';
    if c :| c in v && c in " '\\" {
      var i :| 0 <= i < |v| && v[i] == c;
      assert v[i] in " '\\";
    }
  }

  lemma {:induction false} KeyReads(ws: Spaces, key: string, rest: string)
    requires Sane(ws)
    requires forall i :: 0 <= i < |key| ==> 'a' <= key[i] <= 'z'
    requires rest != "" && rest[0] == '='
    ensures TakeKey(ws, key + rest) == (key, rest)
  {
    if key == "" {
      assert key + rest == rest;
    } else {
      KeyReads(ws, key[1..], rest);
      assert (key + rest)[1..] == key[1..] + rest;
      assert [key[0]] + key[1..] == key;
    }
  }

  lemma {:induction false} BareReads(ws: Spaces, v: string, after: string)
    requires forall i :: 0 <= i < |v| ==> !ws(v[i]) && v[i] != '\\'
    requires after != "" ==> ws(after[0])
    ensures TakeBare(ws, v + after) == (v, after)
  {
    if v == "" {
      assert v + after == after;
    } else {
      BareReads(ws, v[1..], after);
      assert (v + after)[1..] == v[1..] + after;
      assert [v[0]] + v[1..] == v;
    }
  }

  lemma {:induction false} BareStops(ws: Spaces, v: string, k: nat, after: string)
    requires forall i :: 0 <= i < |v| ==> v[i] != '\\'
    requires k < |v| && ws(v[k])
    ensures |TakeBare(ws, v + after).0| <= k
    decreases k
  {
    if !ws(v[0]) {
      BareStops(ws, v[1..], k - 1, after);
      assert (v + after)[1..] == v[1..] + after;
    }
  }

  lemma {:induction false} SkipsToAWord(ws: Spaces, v: string, after: string)
    requires Sane(ws) && Follows(ws, after)
    requires !NeedsQuotes(v)
    ensures var r := SkipSpaces(ws, v + after);
      r != "" ==> !ws(r[0]) && r[0] != '\'' && r[0] != '\\'
  {
    if v == "" {
      assert v + after == after;
    } else {
      assert (v + after)[0] == v[0];
      assert (v + after)[1..] == v[1..] + after;
      assert v[0] !in " '\\";
      forall i | 0 <= i < |v[1..]| ensures v[1..][i] !in " '\\" {
        assert v[1..][i] == v[i + 1];
      }
      SkipsToAWord(ws, v[1..], after);
    }
  }

  lemma QuotedValueReads(ws: Spaces, v: string, after: string)
    requires Sane(ws) && NeedsQuotes(v)
    ensures TakeValue(ws, SkipSpaces(ws, PgEscape(v) + after)) == Some((v, after))
  {
    hide NeedsQuotes, TakeQuoted, Escaped, ReplaceAll, TakeBare;
    TwoReplacementsAreOnePass(v);
    QuotedReadsBack(v, after);
    var s := PgEscape(v) + after;
    assert s[0] == '\'' && s[1..] == Escaped(v) + "'" + after;
  }

  /** A bare value that starts with no space is read through to the first space. */
  lemma BareValueReads(ws: Spaces, v: string, after: string)
    requires Sane(ws) && Follows(ws, after) && v != "" && !NeedsQuotes(v) && !ws(v[0])
    ensures var r := TakeValue(ws, SkipSpaces(ws, v + after));
      if Survives(ws, v) then r == Some((v, after)) else r.Some? && |r.value.0| < |v|
  {
    hide TakeQuoted, TakeBare;
    NeedsQuotesIff(v);
    assert (v + after)[0] == v[0];
    assert v[0] !in " '\\";
    assert SkipSpaces(ws, v + after) == v + after;
    assert forall i :: 0 <= i < |v| ==> v[i] != '\\';
    if k :| 0 <= k < |v| && ws(v[k]) {
      BareStops(ws, v, k, after);
    } else {
      BareReads(ws, v, after);
    }
  }

  /** A leading space is lost. */
  lemma LeadingSpaceIsLost(ws: Spaces, v: string, after: string)
    requires Sane(ws) && Follows(ws, after) && v != "" && !NeedsQuotes(v) && ws(v[0])
    ensures var r := TakeValue(ws, SkipSpaces(ws, v + after));
      r.Some? && (r.value.0 != "" ==> !ws(r.value.0[0]))
  {
    hide TakeQuoted, NeedsQuotes, Follows, SkipSpaces;
    SkipsToAWord(ws, v, after);
  }

  /** A value is read back just when it survives. */
  lemma ValueReadsIff(ws: Spaces, v: string, after: string)
    requires Sane(ws) && Follows(ws, after) && v != ""
    ensures var r := TakeValue(ws, SkipSpaces(ws, PgEscape(v) + after));
      if Survives(ws, v) then r == Some((v, after)) else r.Some? && r.value.0 != v
  {
    hide TakeQuoted, NeedsQuotes, Follows, SkipSpaces, TakeValue, Sane;
    NeedsQuotesIff(v);
    if NeedsQuotes(v) {
      QuotedValueReads(ws, v, after);
    } else if ws(v[0]) {
      LeadingSpaceIsLost(ws, v, after);
    } else {
      BareValueReads(ws, v, after);
    }
  }

  lemma SettingReadsIff(ws: Spaces, st: Setting, after: string)
    requires Sane(ws) && Follows(ws, after) && Word(st.key) && st.value != ""
    ensures var r := TakeSetting(ws, st.key + "=" + PgEscape(st.value) + after);
      if Survives(ws, st.value) then r == Some((st, after)) else r.Some? && r.value.0 != st
  {
    hide PgEscape, TakeValue, Survives, Follows;
    var rest := "=" + (PgEscape(st.value) + after);
    assert st.key + "=" + PgEscape(st.value) + after == st.key + rest;
    KeyReads(ws, st.key, rest);
    assert SkipSpaces(ws, rest) == rest && rest[1..] == PgEscape(st.value) + after;
    ValueReadsIff(ws, st.value, after);
  }

  // ------------------------------------------------------------ all settings

  ghost predicate Printable(settings: seq<Setting>) {
    forall i :: 0 <= i < |settings| ==> Word(settings[i].key) && settings[i].value != ""
  }

  function Tail(settings: seq<Setting>): string {
    if settings == [] then "" else " " + Print(settings)
  }

  lemma PrintStep(settings: seq<Setting>)
    requires settings != []
    ensures Print(settings) == settings[0].key + "=" + PgEscape(settings[0].value) + Tail(settings[1..])
  {
    hide PgEscape;
    var parts := Printed(settings);
    assert parts[1..] == Printed(settings[1..]);
    if |settings| == 1 {
      assert Tail(settings[1..]) == "";
    }
  }

  lemma TailFollows(ws: Spaces, settings: seq<Setting>)
    requires Sane(ws) && Printable(settings)
    ensures Follows(ws, Tail(settings))
    ensures SkipSpaces(ws, Tail(settings)) == Print(settings)
    ensures SkipSpaces(ws, Print(settings)) == Print(settings)
  {
    hide PgEscape;
    if settings != [] {
      PrintStep(settings);
      var s := Print(settings);
      assert Word(settings[0].key);
      assert s[0] == settings[0].key[0];
      assert SkipSpaces(ws, s) == s;
      assert Tail(settings)[0] == ' ' && Tail(settings)[1..] == s;
    }
  }

  ghost predicate AllSurvive(ws: Spaces, settings: seq<Setting>) {
    forall i :: 0 <= i < |settings| ==> Survives(ws, settings[i].value)
  }

  lemma AllSurviveStep(ws: Spaces, settings: seq<Setting>)
    requires settings != []
    ensures AllSurvive(ws, settings) <==> Survives(ws, settings[0].value) && AllSurvive(ws, settings[1..])
  {
    hide Survives;
    if Survives(ws, settings[0].value) && AllSurvive(ws, settings[1..]) {
      forall i | 0 <= i < |settings| ensures Survives(ws, settings[i].value) {
        if i > 0 { assert settings[i] == settings[1..][i - 1]; }
      }
    }
  }

  /** Reading ignores the space before a setting. */
  lemma TailReadsAlike(ws: Spaces, settings: seq<Setting>)
    requires Sane(ws) && Printable(settings)
    ensures Parse(ws, Tail(settings)) == Parse(ws, Print(settings))
  {
    hide Print, Tail, TakeSetting, Sane, Word;
    TailFollows(ws, settings);
  }

  lemma ParseFirst(ws: Spaces, s: string)
    requires s != "" && SkipSpaces(ws, s) == s && TakeSetting(ws, s).Some?
    ensures var first := TakeSetting(ws, s).value;
      Parse(ws, s) == match Parse(ws, first.1)
        case None => None
        case Some(more) => Some([first.0] + more)
  {
    hide TakeSetting;
  }

  lemma RoundTripStep(ws: Spaces, st: Setting, more: seq<Setting>)
    requires Sane(ws) && Printable([st] + more)
    requires Parse(ws, Print(more)) == Some(more) <==> AllSurvive(ws, more)
    ensures Parse(ws, Print([st] + more)) == Some([st] + more) <==> AllSurvive(ws, [st] + more)
  {
    var all := [st] + more;
    assert all[0] == st && all[1..] == more;
    assert Word(st.key) && st.value != "" && Printable(more) by { hide Word; HeadAndRest(st, more); }
    hide *;
    PrintStep(all);
    TailFollows(ws, all);
    TailFollows(ws, more);
    SettingReadsIff(ws, st, Tail(more));
    ParseFirst(ws, Print(all));
    AllSurviveStep(ws, all);
    TailReadsAlike(ws, more);
    if Parse(ws, Print(all)).Some? {
      var first := TakeSetting(ws, Print(all)).value;
      HeadsMatch(first.0, st, Parse(ws, first.1).value, more);
    }
  }

  lemma HeadAndRest(st: Setting, more: seq<Setting>)
    requires Printable([st] + more)
    ensures Word(st.key) && st.value != "" && Printable(more)
  {
    hide Word;
    var all := [st] + more;
    assert all[0] == st;
    forall i | 0 <= i < |more| ensures Word(more[i].key) && more[i].value != "" {
      assert all[i + 1] == more[i];
    }
  }

  /** The round trip: reading the printed text gives back the settings, in order, if
      and only if each value survives. */
  lemma {:induction false} RoundTripIff(ws: Spaces, settings: seq<Setting>)
    requires Sane(ws) && Printable(settings)
    ensures Parse(ws, Print(settings)) == Some(settings) <==> AllSurvive(ws, settings)
  {
    if settings != [] {
      hide *;
      var st, more := settings[0], settings[1..];
      assert settings == [st] + more;
      HeadAndRest(st, more);
      RoundTripIff(ws, more);
      RoundTripStep(ws, st, more);
    }
  }

  /** What is printed has keywords and values fit for printing. */
  lemma {:induction false} SettingsArePrintable(env: Environment, i: nat)
    requires i <= |PARAMS|
    ensures Printable(Settings(env, PARAMS[i..]))
    decreases |PARAMS| - i
  {
    if i < |PARAMS| {
      SettingsArePrintable(env, i + 1);
      assert PARAMS[i..][1..] == PARAMS[i + 1..] && PARAMS[i..][0] == PARAMS[i];
      assert Word(PARAMS[i].0);
    }
  }

  /** Every variable that is set survives. */
  ghost predicate EnvironmentSurvives(ws: Spaces, env: Environment) {
    forall i :: 0 <= i < |PARAMS| ==> Survives(ws, Getenv(env, PARAMS[i].1))
  }

  lemma {:induction false} SettingsSurvive(ws: Spaces, env: Environment, i: nat)
    requires i <= |PARAMS|
    ensures AllSurvive(ws, Settings(env, PARAMS[i..]))
      <==> forall j :: i <= j < |PARAMS| ==> Survives(ws, Getenv(env, PARAMS[j].1))
    decreases |PARAMS| - i
  {
    if i < |PARAMS| {
      var settings := Settings(env, PARAMS[i..]);
      var rest := Settings(env, PARAMS[i + 1..]);
      var v := Getenv(env, PARAMS[i].1);
      SettingsSurvive(ws, env, i + 1);
      assert PARAMS[i..][1..] == PARAMS[i + 1..] && PARAMS[i..][0] == PARAMS[i];
      if v == "" {
        assert settings == [] + rest == rest;
        assert Survives(ws, v);
      } else {
        assert settings == [Setting(PARAMS[i].0, v)] + rest;
        assert settings[1..] == rest;
        AllSurviveStep(ws, settings);
      }
    }
  }

  /** The connection string built from the environment reads back as exactly the
      variables that are set, in order, if and only if each of them has a space, a
      quote or a backslash, or has no whitespace at all. */
  lemma ConnectionStringReadsBackIff(ws: Spaces, env: Environment)
    requires Sane(ws)
    ensures Parse(ws, Print(Settings(env, PARAMS))) == Some(Settings(env, PARAMS)) <==> VariablesSurvive(ws, env)
  {
    hide Settings, Survives, Sane, Parse, Print, VariablesSurvive;
    assert PARAMS[0..] == PARAMS;
    EnvironmentIsItsVariables(ws, env);
    SettingsArePrintable(env, 0);
    SettingsSurvive(ws, env, 0);
    RoundTripIff(ws, Settings(env, PARAMS));
  }

  // ------------------------------------------------------------ keyword by keyword

  /** The variable survives, or is not set. */
  ghost predicate VariableSurvives(ws: Spaces, env: Environment, name: string) {
    name in env ==> Survives(ws, env[name])
  }

  /** The settings give this keyword the value of this variable, if it has one, and
      nothing else. */
  ghost predicate Gives(settings: seq<Setting>, key: string, env: Environment, name: string) {
    forall v :: Setting(key, v) in settings <==> v != "" && name in env && env[name] == v
  }

  /** The place of a keyword in the string. */
  function Place(key: string): nat {
    if key == "host" then 0 else if key == "port" then 1 else if key == "user" then 2
    else if key == "password" then 3 else if key == "dbname" then 4 else if key == "sslmode" then 5 else 6
  }

  predicate InPlace(settings: seq<Setting>) {
    forall i, j :: 0 <= i < j < |settings| ==> Place(settings[i].key) < Place(settings[j].key)
  }

  function One(key: string, v: string): seq<Setting> {
    if v == "" then [] else [Setting(key, v)]
  }

  lemma PlacesOfKeywords()
    ensures Place("host") == 0 && Place("port") == 1 && Place("user") == 2
    ensures Place("password") == 3 && Place("dbname") == 4 && Place("sslmode") == 5
  {
    assert |"host"| == 4 && |"port"| == 4 && |"user"| == 4 && |"password"| == 8 && |"dbname"| == 6 && |"sslmode"| == 7;
    assert "host"[0] == 'h' && "port"[0] == 'p' && "user"[0] == 'u';
  }

  /** The settings that the parameters from number `i` on give. */
  lemma SettingsFrom(env: Environment, i: nat)
    requires i < |PARAMS|
    ensures Settings(env, PARAMS[i..]) == One(PARAMS[i].0, Getenv(env, PARAMS[i].1)) + Settings(env, PARAMS[i + 1..])
  {
    hide PARAMS;
    assert PARAMS[i..][1..] == PARAMS[i + 1..] && PARAMS[i..][0] == PARAMS[i];
    FirstSetting(env, PARAMS[i..]);
  }

  /** From number `i` on, the settings are those of later places, in place, and give each
      keyword its variable's value. */
  ghost predicate GivesFrom(settings: seq<Setting>, env: Environment, i: nat) {
    && InPlace(settings)
    && (forall j :: 0 <= j < |settings| ==> i <= Place(settings[j].key) < 6)
    && (i <= 0 ==> Gives(settings, "host", env, "PGHOST"))
    && (i <= 1 ==> Gives(settings, "port", env, "PGPORT"))
    && (i <= 2 ==> Gives(settings, "user", env, "PGUSER"))
    && (i <= 3 ==> Gives(settings, "password", env, "PGPASSWORD"))
    && (i <= 4 ==> Gives(settings, "dbname", env, "PGDATABASE"))
    && (i <= 5 ==> Gives(settings, "sslmode", env, "PGSSLMODE"))
  }

  /** Putting a setting of an earlier place in front. */
  lemma GivesOne(key: string, env: Environment, name: string, rest: seq<Setting>)
    requires InPlace(rest) && forall j :: 0 <= j < |rest| ==> Place(key) < Place(rest[j].key)
    ensures var all := One(key, Getenv(env, name)) + rest;
      && InPlace(all) && Gives(all, key, env, name)
      && (forall j :: 0 <= j < |all| ==> Place(key) <= Place(all[j].key))
      && (forall j :: 0 <= j < |all| ==> all[j].key == key || all[j] in rest)
      && (forall st: Setting :: st.key != key ==> (st in all <==> st in rest))
  {
    hide Place;
  }

  /** The table, written out. */
  predicate Tabled(i: nat, key: string, name: string) {
    || (i == 0 && key == "host" && name == "PGHOST")
    || (i == 1 && key == "port" && name == "PGPORT")
    || (i == 2 && key == "user" && name == "PGUSER")
    || (i == 3 && key == "password" && name == "PGPASSWORD")
    || (i == 4 && key == "dbname" && name == "PGDATABASE")
    || (i == 5 && key == "sslmode" && name == "PGSSLMODE")
  }

  lemma OthersGive(all: seq<Setting>, rest: seq<Setting>, key: string, other: string, env: Environment, name: string)
    requires forall st: Setting :: st.key != key ==> (st in all <==> st in rest)
    requires other != key
    ensures Gives(rest, other, env, name) ==> Gives(all, other, env, name)
  {
    assert forall v :: Setting(other, v) in all <==> Setting(other, v) in rest;
  }

  lemma GivesNext(i: nat, key: string, name: string, env: Environment, rest: seq<Setting>)
    requires Tabled(i, key, name) && GivesFrom(rest, env, i + 1)
    ensures GivesFrom(One(key, Getenv(env, name)) + rest, env, i)
  {
    PlacesOfKeywords();
    hide Gives, Place, Getenv, One, InPlace;
    GivesOne(key, env, name, rest);
    var all := One(key, Getenv(env, name)) + rest;
    forall j | 0 <= j < |all| ensures i <= Place(all[j].key) < 6 {
      if all[j] in rest {
        var k :| 0 <= k < |rest| && rest[k] == all[j];
      }
    }
    OtherKeywords(i, key, name, env, all, rest);
  }

  /** The other keywords keep what they are given. */
  lemma OtherKeywords(i: nat, key: string, name: string, env: Environment, all: seq<Setting>, rest: seq<Setting>)
    requires Tabled(i, key, name)
    requires forall st: Setting :: st.key != key ==> (st in all <==> st in rest)
    ensures i < 1 && Gives(rest, "port", env, "PGPORT") ==> Gives(all, "port", env, "PGPORT")
    ensures i < 2 && Gives(rest, "user", env, "PGUSER") ==> Gives(all, "user", env, "PGUSER")
    ensures i < 3 && Gives(rest, "password", env, "PGPASSWORD") ==> Gives(all, "password", env, "PGPASSWORD")
    ensures i < 4 && Gives(rest, "dbname", env, "PGDATABASE") ==> Gives(all, "dbname", env, "PGDATABASE")
    ensures i < 5 && Gives(rest, "sslmode", env, "PGSSLMODE") ==> Gives(all, "sslmode", env, "PGSSLMODE")
  {
    PlacesOfKeywords();
    hide Gives, Place;
    if i < 1 { OthersGive(all, rest, key, "port", env, "PGPORT"); }
    if i < 2 { OthersGive(all, rest, key, "user", env, "PGUSER"); }
    if i < 3 { OthersGive(all, rest, key, "password", env, "PGPASSWORD"); }
    if i < 4 { OthersGive(all, rest, key, "dbname", env, "PGDATABASE"); }
    if i < 5 { OthersGive(all, rest, key, "sslmode", env, "PGSSLMODE"); }
  }

  lemma {:induction false} AllGiven(env: Environment, i: nat)
    requires i <= 6
    ensures GivesFrom(Settings(env, PARAMS[i..]), env, i)
    decreases 6 - i
  {
    TableIs();
    if i < 6 {
      AllGiven(env, i + 1);
      SettingsFrom(env, i);
      GivesNext(i, PARAMS[i].0, PARAMS[i].1, env, Settings(env, PARAMS[i + 1..]));
    } else {
      assert PARAMS[6..] == [];
    }
  }

  lemma TableIs()
    ensures |PARAMS| == 6 && forall i :: 0 <= i < 6 ==> Tabled(i, PARAMS[i].0, PARAMS[i].1)
  {
  }

  /** Every variable that is set survives. */
  ghost predicate VariablesSurvive(ws: Spaces, env: Environment) {
    && VariableSurvives(ws, env, "PGHOST") && VariableSurvives(ws, env, "PGPORT")
    && VariableSurvives(ws, env, "PGUSER") && VariableSurvives(ws, env, "PGPASSWORD")
    && VariableSurvives(ws, env, "PGDATABASE") && VariableSurvives(ws, env, "PGSSLMODE")
  }

  lemma EnvironmentIsItsVariables(ws: Spaces, env: Environment)
    ensures EnvironmentSurvives(ws, env) <==> VariablesSurvive(ws, env)
  {
    TableIs();
    hide Survives;
    NothingSurvives(ws);
    assert forall i :: 0 <= i < 6 ==> (Survives(ws, Getenv(env, PARAMS[i].1)) <==> VariableSurvives(ws, env, PARAMS[i].1));
    assert PARAMS[0].1 == "PGHOST" && PARAMS[1].1 == "PGPORT" && PARAMS[2].1 == "PGUSER";
    assert PARAMS[3].1 == "PGPASSWORD" && PARAMS[4].1 == "PGDATABASE" && PARAMS[5].1 == "PGSSLMODE";
  }

  lemma NothingSurvives(ws: Spaces)
    ensures Survives(ws, "")
  {
  }

  /** For every environment whose variables survive, reading the string that is built
      gives each keyword the value of its own variable, if it is set and not empty, and
      each at most once, in this order. */
  lemma EachKeywordReadsItsVariable(ws: Spaces, env: Environment)
    requires Sane(ws) && VariablesSurvive(ws, env)
    ensures var read := Parse(ws, Print(Settings(env, PARAMS)));
      && read.Some? && InPlace(read.value)
      && Gives(read.value, "host", env, "PGHOST")
      && Gives(read.value, "port", env, "PGPORT")
      && Gives(read.value, "user", env, "PGUSER")
      && Gives(read.value, "password", env, "PGPASSWORD")
      && Gives(read.value, "dbname", env, "PGDATABASE")
      && Gives(read.value, "sslmode", env, "PGSSLMODE")
      && forall i :: 0 <= i < |read.value| ==> Place(read.value[i].key) < 6
  {
    hide Settings, Parse, Print, Sane, Gives, InPlace, Place, VariablesSurvive;
    assert PARAMS[0..] == PARAMS;
    ConnectionStringReadsBackIff(ws, env);
    AllGiven(env, 0);
  }

  /** A tab alone is not quoted, and a reader stops at it: text after it can even pass
      for a setting of its own. */
  lemma TabSplitsAValue(k1: string, v1: string, k2: string, v2: string)
    requires Word(k1) && Word(v1) && Word(k2) && Word(v2)
    ensures Parse(IsSpace, Print([Setting(k1, v1 + ("\t" + (k2 + "=" + v2)))])) == Some([Setting(k1, v1), Setting(k2, v2)])
  {
    hide SkipSpaces, TakeKey, TakeBare, TakeSetting, Parse, IsSpace;
    var second := k2 + "=" + v2;
    var value := v1 + ("\t" + second);
    NotQuoted(v1, k2, v2);
    PrintStep([Setting(k1, value)]);
    var s := k1 + "=" + v1 + ("\t" + second);
    assert k1 + "=" + value + "" == s;
    SpacesOfWords();
    OneBare(k1, v1, "\t" + second);
    OneBare(k2, v2, "");
    assert second + "" == second;
    assert s[0] == k1[0] && second[0] == k2[0];
    NoSpaceFirst(s);
    NoSpaceFirst(second);
    ParseFirst(IsSpace, s);
    ParseFirst(IsSpace, second);
    SpaceFirst('\t', second);
    assert "\t" + second == ['\t'] + second;
    ParseNothing();
    assert [Setting(k2, v2)] + [] == [Setting(k2, v2)];
    assert [Setting(k1, v1)] + [Setting(k2, v2)] == [Setting(k1, v1), Setting(k2, v2)];
  }

  lemma NotInWord(c: char, w: string)
    requires Word(w) && !('a' <= c <= 'z')
    ensures c !in w
  {
  }

  lemma NotInEither(c: char, a: string, b: string)
    requires c !in a && c !in b
    ensures c !in a + b
  {
  }

  lemma NotQuoted(v1: string, k2: string, v2: string)
    requires Word(v1) && Word(k2) && Word(v2)
    ensures var v := v1 + ("\t" + (k2 + "=" + v2)); PgEscape(v) == v
  {
    hide NeedsQuotes, Word;
    var v := v1 + ("\t" + (k2 + "=" + v2));
    NeedsQuotesIff(v);
    forall c | c == ' ' || c == '\'' || c == '\\' ensures c !in v {
      NotInWord(c, v1);
      NotInWord(c, k2);
      NotInWord(c, v2);
      NotInEither(c, k2, "=");
      NotInEither(c, k2 + "=", v2);
      NotInEither(c, "\t", k2 + "=" + v2);
      NotInEither(c, v1, "\t" + (k2 + "=" + v2));
    }
  }

  lemma SpacesOfWords()
    ensures Sane(IsSpace) && IsSpace('\t')
  {
  }

  lemma OneBare(key: string, v: string, after: string)
    requires Word(key) && v != "" && (after != "" ==> IsSpace(after[0]))
    requires forall i :: 0 <= i < |v| ==> 'a' <= v[i] <= 'z'
    ensures TakeSetting(IsSpace, key + "=" + v + after) == Some((Setting(key, v), after))
  {
    var s := v + after;
    assert key + "=" + v + after == key + ("=" + s);
    KeyReads(IsSpace, key, "=" + s);
    BareReads(IsSpace, v, after);
    assert ("=" + s)[1..] == s && s[0] == v[0];
  }

  lemma NoSpaceFirst(s: string)
    requires s != "" && !IsSpace(s[0])
    ensures SkipSpaces(IsSpace, s) == s
  {
  }

  lemma SpaceFirst(c: char, s: string)
    requires IsSpace(c) && SkipSpaces(IsSpace, s) == s
    ensures Parse(IsSpace, [c] + s) == Parse(IsSpace, s)
  {
    assert ([c] + s)[1..] == s;
  }

  lemma ParseNothing()
    ensures Parse(IsSpace, "") == Some([])
  {
  }
}
