/**
  Lint directives in comments: a one-pass scan over the lines that carries the set of rules switched off
  by block directives, and what it means for a rule to be off on a line.
*/
module Lint {
  import opened Strings

  // ── Lines ─────────────────────────────────────────────────────────────────

  function WithoutReturn(line: string): string {
    if line != "" && line[|line| - 1] == '\r' then line[..|line| - 1] else line
  }

  function Ended(parts: seq<string>): seq<string>
    requires |parts| > 0
  {
    if |parts| == 1 then if parts[0] == "" then [] else parts
    else [WithoutReturn(parts[0])] + Ended(parts[1..])
  }

  /** `str::lines`: an empty last line is none, and `\r` belongs to the line ending. */
  function Lines(source: string): seq<string> {
    Ended(Split(source, '\n'))
  }

  /** The pieces between newlines of a text whose every line is ended by `\n`, or by `\r\n`. */
  function Terminated(lines: seq<string>, crlf: bool): (parts: seq<string>)
    ensures |parts| == |lines| + 1
  {
    if lines == [] then [""] else [lines[0] + if crlf then "\r" else ""] + Terminated(lines[1..], crlf)
  }

  /** Either way of ending lines reads back the same lines. */
  lemma {:induction false} LinesReadBack(lines: seq<string>, crlf: bool)
    requires forall i :: 0 <= i < |lines| ==> '\n' !in lines[i] && WithoutReturn(lines[i]) == lines[i]
    ensures Lines(Join(Terminated(lines, crlf), '\n')) == lines
  {
    hide WithoutReturn;
    TerminatedParts(lines, crlf);
    SplitJoin(Terminated(lines, crlf), '\n');
    EndedTerminated(lines, crlf);
  }

  lemma {:induction false} TerminatedParts(lines: seq<string>, crlf: bool)
    requires forall i :: 0 <= i < |lines| ==> '\n' !in lines[i]
    ensures forall i :: 0 <= i <= |lines| ==> '\n' !in Terminated(lines, crlf)[i]
  {
    if lines == [] {
    } else {
      TerminatedParts(lines[1..], crlf);
    }
  }

  lemma {:induction false} EndedTerminated(lines: seq<string>, crlf: bool)
    requires forall i :: 0 <= i < |lines| ==> WithoutReturn(lines[i]) == lines[i]
    ensures Ended(Terminated(lines, crlf)) == lines
  {
    if lines == [] {
    } else {
      EndedTerminated(lines[1..], crlf);
      var parts := Terminated(lines, crlf);
      assert parts[1..] == Terminated(lines[1..], crlf);
      assert parts[0] == lines[0] + if crlf then "\r" else "";
      assert crlf ==> WithoutReturn(parts[0]) == lines[0];
      assert !crlf ==> parts[0] == lines[0];
    }
  }

  // ── Rule lists ────────────────────────────────────────────────────────────

  function TakeWord(s: string): string {
    if s == "" || IsSpace(s[0]) then "" else [s[0]] + TakeWord(s[1..])
  }

  function WithoutSuffixes(s: string, suffix: string): string
    requires suffix != ""
  {
    if |suffix| <= |s| && s[|s| - |suffix|..] == suffix then WithoutSuffixes(s[..|s| - |suffix|], suffix) else s
  }

  /** The first word of a part, without comment closers. */
  function Token(part: string): string {
    Trim(WithoutSuffixes(WithoutSuffixes(TakeWord(TrimStart(part)), "--}}"), "*/"))
  }

  function Repeated(s: string, n: nat): string {
    if n == 0 then "" else Repeated(s, n - 1) + s
  }

  predicate NoSpace(s: string) {
    forall i :: 0 <= i < |s| ==> !IsSpace(s[i])
  }

  predicate EndsWith(s: string, suffix: string) {
    |suffix| <= |s| && s[|s| - |suffix|..] == suffix
  }

  /** Leading space, a bare word, then any closers of block comments and after them of Handlebars comments, then
      nothing or a space and anything: the token is the word. */
  lemma {:induction false} TokenIsTheWord(lead: string, word: string, m: nat, n: nat, rest: string)
    requires AllSpace(lead) && word != "" && NoSpace(word)
    requires !EndsWith(word, "--}}") && !EndsWith(word, "*/")
    requires rest == "" || IsSpace(rest[0])
    ensures Token(lead + word + Repeated("*/", m) + Repeated("--}}", n) + rest) == word
  {
    hide Token, Trim, TakeWord, TrimStart, WithoutSuffixes, Repeated;
    var stars, dashes := Repeated("*/", m), Repeated("--}}", n);
    var full := word + stars + dashes;
    RepeatedHasNoSpace("*/", m);
    RepeatedHasNoSpace("--}}", n);
    assert lead + word + stars + dashes + rest == lead + (full + rest);
    assert (full + rest)[0] == word[0];
    TrimStartPadded(lead, full + rest);
    WordTaken(full, rest);
    StarsEndOtherwise(word, m);
    SuffixesGo(word + stars, "--}}", n);
    SuffixesGo(word, "*/", m);
    TrimmedWord(word);
    TokenSteps(lead + word + stars + dashes + rest);
  }

  lemma {:induction false} TokenSteps(part: string)
    ensures Token(part) == Trim(WithoutSuffixes(WithoutSuffixes(TakeWord(TrimStart(part)), "--}}"), "*/"))
  {
  }

  lemma {:induction false} RepeatedHasNoSpace(s: string, n: nat)
    requires NoSpace(s)
    ensures NoSpace(Repeated(s, n))
  {
    if n == 0 {
    } else {
      RepeatedHasNoSpace(s, n - 1);
    }
  }

  lemma {:induction false} WordTaken(word: string, rest: string)
    requires NoSpace(word) && (rest == "" || IsSpace(rest[0]))
    ensures TakeWord(word + rest) == word
  {
    if word == "" {
      assert word + rest == rest;
    } else {
      assert (word + rest)[1..] == word[1..] + rest;
      WordTaken(word[1..], rest);
      assert [word[0]] + word[1..] == word;
    }
  }

  lemma {:induction false} StarsEndOtherwise(word: string, m: nat)
    requires !EndsWith(word, "--}}")
    ensures !EndsWith(word + Repeated("*/", m), "--}}")
  {
    if m == 0 {
      assert word + Repeated("*/", 0) == word;
    } else {
      var s := word + Repeated("*/", m);
      assert s[|s| - 1] == '/';
      if |s| >= 4 {
        assert s[|s| - 4..][3] == s[|s| - 1];
      }
    }
  }

  lemma {:induction false} SuffixGoes(s: string, suffix: string)
    requires suffix != ""
    ensures WithoutSuffixes(s + suffix, suffix) == WithoutSuffixes(s, suffix)
    ensures !EndsWith(s, suffix) ==> WithoutSuffixes(s, suffix) == s
  {
    var longer := s + suffix;
    assert longer[|s|..] == suffix && longer[..|s|] == s;
  }

  lemma {:induction false} SuffixesGo(s: string, suffix: string, n: nat)
    requires suffix != "" && !EndsWith(s, suffix)
    ensures WithoutSuffixes(s + Repeated(suffix, n), suffix) == s
  {
    hide WithoutSuffixes, EndsWith;
    if n == 0 {
      assert s + Repeated(suffix, 0) == s;
      SuffixGoes(s, suffix);
    } else {
      var shorter := s + Repeated(suffix, n - 1);
      assert s + Repeated(suffix, n) == shorter + suffix;
      SuffixGoes(shorter, suffix);
      SuffixesGo(s, suffix, n - 1);
    }
  }

  lemma {:induction false} TrimmedWord(word: string)
    requires NoSpace(word)
    ensures Trim(word) == word
  {
  }

  /** Only space: no token. */
  lemma {:induction false} SpaceHasNoToken(space: string)
    requires AllSpace(space)
    ensures Token(space) == ""
  {
    if space == "" {
    } else {
      SpaceHasNoToken(space[1..]);
    }
  }

  predicate IsRule(token: string) {
    '/' in token
  }

  /** `r` is the token of a part, and every part before has a rule or nothing as its token: the first
      other word starts free text. */
  predicate NamedIn(parts: seq<string>, r: string) {
    exists i | 0 <= i < |parts| :: Token(parts[i]) == r && IsRule(r) && OnlyRules(parts[..i])
  }

  predicate OnlyRules(parts: seq<string>) {
    forall j :: 0 <= j < |parts| ==> Token(parts[j]) == "" || IsRule(Token(parts[j]))
  }

  predicate Names(text: string, r: string) {
    NamedIn(Split(text, ','), r)
  }

  method ParseRules(text: string) returns (rules: set<string>)
    ensures forall r :: r in rules <==> Names(text, r)
  {
    hide Token, IsRule, Split;
    rules := {};
    var parts := Split(text, ',');
    for i := 0 to |parts|
      invariant forall r :: r in rules <==> NamedIn(parts[..i], r)
      invariant OnlyRules(parts[..i])
    {
      NamedStep(parts, i);
      var token := Token(parts[i]);
      if token == "" {
        EmptyIsNoRule();
        continue;
      }
      if IsRule(token) {
        rules := rules + {token};
      } else {
        forall r ensures NamedIn(parts, r) <==> NamedIn(parts[..i], r) {
          FreeTextStops(parts, i, r);
        }
        break;
      }
    }
    assert parts[..|parts|] == parts;
  }

  lemma {:induction false} EmptyIsNoRule()
    ensures !IsRule("")
  {
  }

  lemma {:induction false} NamedStep(parts: seq<string>, i: nat)
    requires i < |parts| && OnlyRules(parts[..i])
    ensures forall r :: NamedIn(parts[..i + 1], r) <==> NamedIn(parts[..i], r) || (Token(parts[i]) == r && IsRule(r))
    ensures OnlyRules(parts[..i + 1]) <==> Token(parts[i]) == "" || IsRule(Token(parts[i]))
  {
    hide Token, IsRule;
    var long, short := parts[..i + 1], parts[..i];
    assert forall k :: 0 <= k <= i ==> long[..k] == parts[..k];
    assert forall k :: 0 <= k <= i ==> short[..k] == parts[..k];
    assert long[i] == parts[i];
    forall r ensures NamedIn(long, r) <==> NamedIn(short, r) || (Token(parts[i]) == r && IsRule(r)) {
      if NamedIn(short, r) {
        var k :| 0 <= k < |short| && Token(short[k]) == r && IsRule(r) && OnlyRules(short[..k]);
        assert Token(long[k]) == r && OnlyRules(long[..k]);
      }
      if Token(parts[i]) == r && IsRule(r) {
        assert Token(long[i]) == r && OnlyRules(long[..i]);
      }
      if NamedIn(long, r) {
        var k :| 0 <= k < |long| && Token(long[k]) == r && IsRule(r) && OnlyRules(long[..k]);
        if k < i {
          assert Token(short[k]) == r && OnlyRules(short[..k]);
        }
      }
    }
  }

  /** Nothing past free text is named. */
  lemma {:induction false} FreeTextStops(parts: seq<string>, i: nat, r: string)
    requires i < |parts| && Token(parts[i]) != "" && !IsRule(Token(parts[i]))
    ensures NamedIn(parts, r) <==> NamedIn(parts[..i], r)
  {
    hide Token, IsRule;
    forall k | i < k <= |parts| ensures !OnlyRules(parts[..k]) {
      assert parts[..k][i] == parts[i];
    }
    if NamedIn(parts, r) {
      var k :| 0 <= k < |parts| && Token(parts[k]) == r && IsRule(r) && OnlyRules(parts[..k]);
      assert parts[..i][..k] == parts[..k] && Token(parts[..i][k]) == r;
    }
    if NamedIn(parts[..i], r) {
      var k :| 0 <= k < i && Token(parts[..i][k]) == r && IsRule(r) && OnlyRules(parts[..i][..k]);
      assert parts[..i][..k] == parts[..k] && Token(parts[k]) == r;
    }
  }

  /** A rule as it is written: a slash in it, no comma, no space, no comment closer at its end. */
  predicate PlainRule(rule: string) {
    '/' in rule && PlainWord(rule)
  }

  predicate PlainWord(word: string) {
    word != "" && ',' !in word && NoSpace(word) && !EndsWith(word, "--}}") && !EndsWith(word, "*/")
  }

  function Spaced(rules: seq<string>): (parts: seq<string>)
    ensures |parts| == |rules| && forall i :: 0 <= i < |rules| ==> parts[i] == " " + rules[i]
  {
    if rules == [] then [] else Spaced(rules[..|rules| - 1]) + [" " + rules[|rules| - 1]]
  }

  lemma {:induction false} PlainToken(word: string, rest: string)
    requires PlainWord(word) && (rest == "" || IsSpace(rest[0]))
    ensures Token(" " + word + rest) == word
  {
    hide Token;
    TokenIsTheWord(" ", word, 0, 0, rest);
    assert " " + word + "" + "" + rest == " " + word + rest;
  }

  /** A list as it is written reads back: the rules in it, and nothing from the first word without a slash on,
      whatever follows. */
  lemma {:induction false} WrittenRulesAreRead(rules: seq<string>, word: string, rest: string, more: seq<string>, r: string)
    requires forall i :: 0 <= i < |rules| ==> PlainRule(rules[i])
    requires PlainWord(word) && '/' !in word && (rest == "" || IsSpace(rest[0])) && ',' !in rest
    requires forall i :: 0 <= i < |more| ==> ',' !in more[i]
    ensures Names(Join(Spaced(rules) + [" " + word + rest] + more, ','), r) <==> r in rules
    ensures rules != [] ==> (Names(Join(Spaced(rules), ','), r) <==> r in rules)
  {
    hide Token, NamedIn, Join, Split, PlainWord;
    var listed := Spaced(rules);
    var parts := listed + [" " + word + rest] + more;
    forall i | 0 <= i < |rules| ensures Token(listed[i]) == rules[i] && ',' !in listed[i] {
      PlainToken(rules[i], "");
      assert " " + rules[i] + "" == listed[i];
      PlainHasNoComma(rules[i]);
    }
    PlainToken(word, rest);
    PlainHasNoComma(word);
    SplitJoin(parts, ',');
    FreeTextStops(parts, |rules|, r);
    assert parts[..|rules|] == listed;
    OnlyTheListed(listed, rules, r);
    if rules != [] {
      SplitJoin(listed, ',');
    }
  }

  lemma {:induction false} PlainHasNoComma(word: string)
    requires PlainWord(word)
    ensures ',' !in word && word != ""
  {
  }

  lemma {:induction false} OnlyTheListed(parts: seq<string>, rules: seq<string>, r: string)
    requires |parts| == |rules| && forall i :: 0 <= i < |rules| ==> '/' in rules[i] && Token(parts[i]) == rules[i]
    ensures NamedIn(parts, r) <==> r in rules
  {
    hide Token;
    if r in rules {
      var i :| 0 <= i < |rules| && rules[i] == r;
      assert OnlyRules(parts[..i]);
    }
  }

  // ── Directives ────────────────────────────────────────────────────────────

  function StripPrefix(s: string, prefix: string): Option<string> {
    if prefix <= s then Some(s[|prefix|..]) else None
  }

  function OrElse(a: Option<string>, b: Option<string>): Option<string> {
    if a.Some? then a else b
  }

  function ExtractBlockDisable(trimmed: string): Option<string> {
    OrElse(StripPrefix(trimmed, "// vynil-lint-disable"),
           OrElse(StripPrefix(trimmed, "{{!-- vynil-lint-disable"), StripPrefix(trimmed, "# vynil-lint-disable")))
  }

  function ExtractBlockEnable(trimmed: string): Option<string> {
    OrElse(StripPrefix(trimmed, "// vynil-lint-enable"),
           OrElse(StripPrefix(trimmed, "{{!-- vynil-lint-enable"), StripPrefix(trimmed, "# vynil-lint-enable")))
  }

  predicate Disables(line: string, r: string) {
    var rest := ExtractBlockDisable(Trim(line));
    rest.Some? && Names(rest.value, r)
  }

  predicate Enables(line: string, r: string) {
    var rest := ExtractBlockEnable(Trim(line));
    ExtractBlockDisable(Trim(line)).None? && rest.Some? && Names(rest.value, r)
  }

  predicate IsDirective(line: string) {
    ExtractBlockDisable(Trim(line)).Some? || ExtractBlockEnable(Trim(line)).Some?
  }

  /** The text of a block directive in one of the three comment styles. */
  predicate IsForm(text: string, word: string, rest: string) {
    text == "// " + word + rest || text == "{{!-- " + word + rest || text == "# " + word + rest
  }

  lemma {:induction false} StripsOwnPrefix(text: string, prefix: string, rest: string)
    ensures StripPrefix(text, prefix) == Some(rest) <==> text == prefix + rest
  {
    if text == prefix + rest {
      assert text[|prefix|..] == rest;
    }
    if StripPrefix(text, prefix) == Some(rest) {
      assert text == prefix + text[|prefix|..];
    }
  }

  /** Three forms disable and three enable, each for the rules of its list; every other line is no directive. */
  lemma {:induction false} DirectivesByForm(line: string, r: string)
    ensures Disables(line, r) <==> exists rest :: IsForm(Trim(line), "vynil-lint-disable", rest) && Names(rest, r)
    ensures Enables(line, r) <==> exists rest :: IsForm(Trim(line), "vynil-lint-enable", rest) && Names(rest, r)
    ensures IsDirective(line) <==> exists rest ::
      IsForm(Trim(line), "vynil-lint-disable", rest) || IsForm(Trim(line), "vynil-lint-enable", rest)
  {
    hide Trim, Names, StripPrefix;
    var text := Trim(line);
    forall rest {
      FormIsExtracted(text, rest);
    }
    OneDirective(text);
  }

  lemma {:induction false} FormIsExtracted(text: string, rest: string)
    ensures ExtractBlockDisable(text) == Some(rest) <==> IsForm(text, "vynil-lint-disable", rest)
    ensures ExtractBlockEnable(text) == Some(rest) <==> IsForm(text, "vynil-lint-enable", rest)
  {
    hide StripPrefix, IsForm;
    DisableForms(text, rest);
    EnableForms(text, rest);
  }

  lemma {:induction false} DisableForms(text: string, rest: string)
    ensures ExtractBlockDisable(text) == Some(rest) <==> IsForm(text, "vynil-lint-disable", rest)
  {
    hide StripPrefix, IsForm;
    var off := "vynil-lint-disable";
    assert "// " + off == "// vynil-lint-disable" && "{{!-- " + off == "{{!-- vynil-lint-disable";
    assert "# " + off == "# vynil-lint-disable";
    FirstForm(text, off, rest);
  }

  lemma {:induction false} EnableForms(text: string, rest: string)
    ensures ExtractBlockEnable(text) == Some(rest) <==> IsForm(text, "vynil-lint-enable", rest)
  {
    hide StripPrefix, IsForm;
    var on := "vynil-lint-enable";
    assert "// " + on == "// vynil-lint-enable" && "{{!-- " + on == "{{!-- vynil-lint-enable";
    assert "# " + on == "# vynil-lint-enable";
    FirstForm(text, on, rest);
  }

  lemma {:induction false} FirstForm(text: string, word: string, rest: string)
    ensures OrElse(StripPrefix(text, "// " + word),
                   OrElse(StripPrefix(text, "{{!-- " + word), StripPrefix(text, "# " + word))) == Some(rest) <==>
      IsForm(text, word, rest)
  {
    StartsWithOwn(text, "// " + word);
    StartsWithOwn(text, "{{!-- " + word);
    StartsWithOwn(text, "# " + word);
    StripsOwnPrefix(text, "// " + word, rest);
    StripsOwnPrefix(text, "{{!-- " + word, rest);
    StripsOwnPrefix(text, "# " + word, rest);
    hide StripPrefix;
  }

  lemma {:induction false} StartsWithOwn(text: string, prefix: string)
    requires prefix != ""
    ensures StripPrefix(text, prefix).Some? ==> text != "" && text[0] == prefix[0]
  {
  }

  /** The styles differ in their first character. */
  lemma {:induction false} OneStyle(text: string)
    ensures StripPrefix(text, "// vynil-lint-disable").Some? || StripPrefix(text, "// vynil-lint-enable").Some? ==>
      text != "" && text[0] == '/'
    ensures StripPrefix(text, "{{!-- vynil-lint-disable").Some? || StripPrefix(text, "{{!-- vynil-lint-enable").Some? ==>
      text != "" && text[0] == '{'
    ensures StripPrefix(text, "# vynil-lint-disable").Some? || StripPrefix(text, "# vynil-lint-enable").Some? ==>
      text != "" && text[0] == '#'
  {
  }

  lemma {:induction false} OneDirective(text: string)
    ensures ExtractBlockDisable(text).None? || ExtractBlockEnable(text).None?
  {
    assert "// vynil-lint-disable" <= text ==> text[14] == 'd';
    assert "// vynil-lint-enable" <= text ==> text[14] == 'e';
    assert "{{!-- vynil-lint-disable" <= text ==> text[17] == 'd';
    assert "{{!-- vynil-lint-enable" <= text ==> text[17] == 'e';
    assert "# vynil-lint-disable" <= text ==> text[13] == 'd';
    assert "# vynil-lint-enable" <= text ==> text[13] == 'e';
    OneStyle(text);
  }

  function Find(s: string, pattern: string): Option<nat> {
    if pattern <= s then Some(0)
    else if s == "" then None
    else
      var i := Find(s[1..], pattern);
      if i.Some? then Some(i.value + 1) else None
  }

  /** `Find` is the first place where the pattern stands. */
  lemma {:induction false} FindIsFirst(s: string, pattern: string)
    ensures Find(s, pattern).Some? ==>
      Find(s, pattern).value + |pattern| <= |s| && pattern <= s[Find(s, pattern).value..]
    ensures forall j :: 0 <= j <= |s| && (Find(s, pattern).Some? ==> j < Find(s, pattern).value) ==> !(pattern <= s[j..])
  {
    if !(pattern <= s) && s != "" {
      FindIsFirst(s[1..], pattern);
      forall j | 0 <= j <= |s| && (Find(s, pattern).Some? ==> j < Find(s, pattern).value)
        ensures !(pattern <= s[j..])
      {
        if j > 0 {
          assert s[1..][j - 1..] == s[j..];
        } else {
          assert s[0..] == s;
        }
      }
      if Find(s, pattern).Some? {
        assert s[1..][Find(s[1..], pattern).value..] == s[Find(s, pattern).value..];
      }
    } else if pattern <= s {
      assert s[0..] == s;
    } else {
      assert s[0..] == s;
    }
  }

  /** A marker on the line names the rule, in the list after its first occurrence. */
  predicate MarkerNames(line: string, marker: string, r: string) {
    var at := Find(line, marker);
    at.Some? && at.value + |marker| <= |line| && Names(line[at.value + |marker|..], r)
  }

  ghost predicate NamesSome(line: string, marker: string) {
    exists r :: MarkerNames(line, marker, r)
  }

  /** The first form with a rule list names `r`. */
  ghost predicate InlineNames(line: string, r: string) {
    if NamesSome(line, "// vynil-lint-disable") then MarkerNames(line, "// vynil-lint-disable", r)
    else if NamesSome(line, "{{!-- vynil-lint-disable") then MarkerNames(line, "{{!-- vynil-lint-disable", r)
    else MarkerNames(line, "# vynil-lint-disable", r)
  }

  /** The last directive before line `n` that names `r` is a disable. */
  predicate BlockedAt(lines: seq<string>, n: nat, r: string)
    requires n <= |lines|
  {
    exists k | 0 <= k < n :: Disables(lines[k], r) && !EnabledIn(lines, k + 1, n, r)
  }

  predicate EnabledIn(lines: seq<string>, from: nat, n: nat, r: string)
    requires n <= |lines|
  {
    exists j | from <= j < n :: Enables(lines[j], r)
  }

  /** Rule `r` is off on line `n`, counted from 1. */
  ghost predicate OffOn(lines: seq<string>, n: nat, r: string) {
    1 <= n <= |lines| && !IsDirective(lines[n - 1])
    && (BlockedAt(lines, n - 1, r) || InlineNames(lines[n - 1], r))
  }

  lemma {:induction false} BlockedStep(lines: seq<string>, n: nat, r: string)
    requires n < |lines|
    ensures BlockedAt(lines, n + 1, r) <==>
      Disables(lines[n], r) || (BlockedAt(lines, n, r) && !Enables(lines[n], r))
  {
    hide Disables, Enables;
    if Disables(lines[n], r) {
      assert !EnabledIn(lines, n + 1, n + 1, r);
    }
    if BlockedAt(lines, n, r) && !Enables(lines[n], r) {
      var k :| 0 <= k < n && Disables(lines[k], r) && !EnabledIn(lines, k + 1, n, r);
      assert !EnabledIn(lines, k + 1, n + 1, r);
    }
    if BlockedAt(lines, n + 1, r) && !Disables(lines[n], r) {
      var k :| 0 <= k < n + 1 && Disables(lines[k], r) && !EnabledIn(lines, k + 1, n + 1, r);
      assert k < n;
      assert !Enables(lines[n], r);
      assert !EnabledIn(lines, k + 1, n, r);
    }
  }

  /** One marker form of a line. */
  method MarkerRules(line: string, marker: string) returns (rules: set<string>)
    ensures forall r :: r in rules <==> MarkerNames(line, marker, r)
  {
    hide Names, Find;
    rules := {};
    var at := Find(line, marker);
    if at.Some? {
      FindIsFirst(line, marker);
      rules := ParseRules(line[at.value + |marker|..]);
    }
  }

  method InlineRules(line: string) returns (rules: set<string>)
    ensures forall r :: r in rules <==> InlineNames(line, r)
  {
    hide MarkerNames;
    rules := MarkerRules(line, "// vynil-lint-disable");
    if rules != {} {
      assert exists r :: r in rules;
      return;
    }
    rules := MarkerRules(line, "{{!-- vynil-lint-disable");
    if rules != {} {
      assert exists r :: r in rules;
      return;
    }
    rules := MarkerRules(line, "# vynil-lint-disable");
  }

  /** The scan lists rule `r` for line `n` exactly when `r` is off on line `n`; no listed set is empty
      and lines count from 1. */
  method ParseInlineDisables(source: string) returns (result: map<nat, set<string>>)
    ensures forall n, r :: n in result && r in result[n] <==> OffOn(Lines(source), n, r)
    ensures forall n | n in result :: n > 0 && result[n] != {}
  {
    hide Lines, Trim, Names, ExtractBlockDisable, ExtractBlockEnable, BlockedAt, InlineNames;
    result := map[];
    var active: set<string> := {};
    var lines := Lines(source);
    forall r ensures !BlockedAt(lines, 0, r) {
      NothingBlockedAtFirst(lines, r);
    }
    for i := 0 to |lines|
      invariant forall r :: r in active <==> BlockedAt(lines, i, r)
      invariant forall n | n in result :: 0 < n <= i && result[n] != {}
      invariant forall n, r | 0 < n <= i :: n in result && r in result[n] <==> OffOn(lines, n, r)
    {
      var line := lines[i];
      var trimmed := Trim(line);
      forall r ensures BlockedAt(lines, i + 1, r) <==>
        Disables(line, r) || (BlockedAt(lines, i, r) && !Enables(line, r))
      {
        BlockedStep(lines, i, r);
      }
      var rest := ExtractBlockDisable(trimmed);
      if rest.Some? {
        var rules := ParseRules(rest.value);
        assert forall r :: r in rules <==> Disables(line, r);
        active := active + rules;
        continue;
      }
      rest := ExtractBlockEnable(trimmed);
      if rest.Some? {
        var rules := ParseRules(rest.value);
        assert forall r :: r in rules <==> Enables(line, r);
        active := active - rules;
        continue;
      }
      var number := i + 1;
      assert forall r :: !Disables(line, r) && !Enables(line, r);
      if active != {} {
        result := result[number := active];
      }
      var inline := InlineRules(line);
      if inline != {} {
        result := result[number := (if number in result then result[number] else {}) + inline];
      }
    }
  }

  lemma {:induction false} NothingBlockedAtFirst(lines: seq<string>, r: string)
    ensures !BlockedAt(lines, 0, r)
  {
  }

  // ── Levels ────────────────────────────────────────────────────────────────

  datatype Level = Info | Warn | Error

  datatype FileRule = FileRule(glob: string, disable: seq<string>, override: map<string, Level>)

  datatype Config = Config(disable: seq<string>, override: map<string, Level>, files: seq<FileRule>)

  function Chosen(override: map<string, Level>, rule: string, level: Level): Level {
    if rule in override then override[rule] else level
  }

  /** Off inline, off globally, off in the first file rule that matches, or the level of that rule, of the
      global override, of the default, in this order. Later file rules never count. */
  method ResolveLevel(c: Config, rule: string, matches: string -> bool, default: Level, inlineDisabled: set<string>)
    returns (r: Option<Level>)
    ensures rule in inlineDisabled || rule in c.disable ==> r == None
    ensures rule !in inlineDisabled && rule !in c.disable ==>
      forall k | 0 <= k < |c.files| && matches(c.files[k].glob) && (forall j :: 0 <= j < k ==> !matches(c.files[j].glob)) ::
        r == if rule in c.files[k].disable then None
             else Some(Chosen(c.files[k].override, rule, Chosen(c.override, rule, default)))
    ensures rule !in inlineDisabled && rule !in c.disable ==>
      (forall j :: 0 <= j < |c.files| ==> !matches(c.files[j].glob)) ==>
        r == Some(Chosen(c.override, rule, default))
  {
    if rule in inlineDisabled {
      return None;
    }
    if rule in c.disable {
      return None;
    }
    var level := default;
    if rule in c.override {
      level := c.override[rule];
    }
    for i := 0 to |c.files|
      invariant level == Chosen(c.override, rule, default)
      invariant forall j :: 0 <= j < i ==> !matches(c.files[j].glob)
    {
      var fileRule := c.files[i];
      if matches(fileRule.glob) {
        if rule in fileRule.disable {
          return None;
        }
        if rule in fileRule.override {
          level := fileRule.override[rule];
        }
        break;
      }
    }
    return Some(level);
  }
}
