/**
 Normalising a legacy skill name and validating the result against the AgentSkills
 name grammar: lower-case alphanumeric words joined by single hyphens.

 Lower-casing is a parameter: what is proved holds for every function that leaves
 strings of lower-case letters, digits and hyphens alone.
 */
module SkillNames {

  import opened Prelude

  predicate IsAlnum(c: char) { 'a' <= c <= 'z' || '0' <= c <= '9' }

  predicate AllAlnum(s: string) { forall i :: 0 <= i < |s| ==> IsAlnum(s[i]) }

  predicate IsPlain(s: string) { forall i :: 0 <= i < |s| ==> IsAlnum(s[i]) || s[i] == '-' }

  // ----- the rewrite chain -----

  /** `replace("_", "-")`, then `re.sub("[^a-z0-9-]", "")`. */
  function Cleaned(s: string): string {
    if s == "" then ""
    else
      var c := if s[0] == '_' then '-' else s[0];
      (if IsAlnum(c) || c == '-' then [c] else []) + Cleaned(s[1..])
  }

  /** `re.sub("-+", "-")` */
  function Collapsed(s: string): string {
    if |s| <= 1 then s
    else if s[0] == '-' && s[1] == '-' then Collapsed(s[1..])
    else [s[0]] + Collapsed(s[1..])
  }

  function StripLeft(s: string): string {
    if s != "" && s[0] == '-' then StripLeft(s[1..]) else s
  }

  function StripRight(s: string): string {
    if s != "" && s[|s| - 1] == '-' then StripRight(s[..|s| - 1]) else s
  }

  function Normalize(lower: string -> string, name: string): string {
    StripRight(StripLeft(Collapsed(Cleaned(lower(name)))))
  }

  // ----- the grammar -----

  function Join(parts: seq<string>): string {
    if parts == [] then ""
    else if |parts| == 1 then parts[0]
    else parts[0] + "-" + Join(parts[1..])
  }

  predicate AreWords(parts: seq<string>) {
    forall i :: 0 <= i < |parts| ==> parts[i] != "" && AllAlnum(parts[i])
  }

  /** The language `[a-z0-9]+(-[a-z0-9]+)*`. */
  ghost predicate InGrammar(s: string) {
    exists parts: seq<string> :: parts != [] && AreWords(parts) && s == Join(parts)
  }

  // ----- what normalising computes -----

  /** Alphanumerics of each stretch between hyphens or underscores; empty stretches are dropped. */
  function Fields(s: string, word: string): seq<string> {
    if s == "" then (if word == "" then [] else [word])
    else if s[0] == '-' || s[0] == '_' then (if word == "" then [] else [word]) + Fields(s[1..], "")
    else Fields(s[1..], if IsAlnum(s[0]) then word + [s[0]] else word)
  }

  lemma {:induction false} FieldsAreWords(s: string, word: string)
    requires AllAlnum(word)
    ensures AreWords(Fields(s, word))
  {
    if s != "" {
      if s[0] == '-' || s[0] == '_' {
        FieldsAreWords(s[1..], "");
      } else {
        FieldsAreWords(s[1..], if IsAlnum(s[0]) then word + [s[0]] else word);
      }
    }
  }

  lemma {:induction false} CleaningKeepsFields(s: string, word: string)
    ensures Fields(Cleaned(s), word) == Fields(s, word) && IsPlain(Cleaned(s))
  {
    if s != "" {
      var c := if s[0] == '_' then '-' else s[0];
      CleaningKeepsFields(s[1..], "");
      CleaningKeepsFields(s[1..], if IsAlnum(s[0]) then word + [s[0]] else word);
      if IsAlnum(c) || c == '-' {
        assert Cleaned(s) == [c] + Cleaned(s[1..]);
        assert Cleaned(s)[1..] == Cleaned(s[1..]);
      } else {
        assert Cleaned(s) == Cleaned(s[1..]);
      }
    }
  }

  lemma {:induction false} FieldsOfWord(a: string, word: string)
    requires AllAlnum(a)
    ensures Fields(a, word) == if word + a == "" then [] else [word + a]
  {
    if a != "" {
      FieldsOfWord(a[1..], word + [a[0]]);
      assert word + [a[0]] + a[1..] == word + a;
    } else {
      assert word + a == word;
    }
  }

  /** A word, a hyphen, and the rest. */
  lemma {:induction false} FieldsSplit(a: string, rest: string, word: string)
    requires AllAlnum(a)
    ensures Fields(a + "-" + rest, word) == (if word + a == "" then [] else [word + a]) + Fields(rest, "")
  {
    var s := a + "-" + rest;
    if a == "" {
      assert s[1..] == rest && word + a == word;
    } else {
      FieldsSplit(a[1..], rest, word + [a[0]]);
      assert s[1..] == a[1..] + "-" + rest;
      assert word + [a[0]] + a[1..] == word + a;
    }
  }

  lemma {:induction false} CollapseWord(a: string, rest: string)
    requires AllAlnum(a)
    ensures Collapsed(a + rest) == a + Collapsed(rest)
  {
    var s := a + rest;
    if a == "" {
      assert s == rest;
    } else {
      CollapseWord(a[1..], rest);
      assert s[1..] == a[1..] + rest;
      if |s| <= 1 {
        assert rest == "" && a == s;
      }
    }
  }

  /** Behind a hyphen, leading hyphens merge into it. */
  lemma {:induction false} CollapseHyphen(rest: string)
    ensures Collapsed("-" + rest) == "-" + StripLeft(Collapsed(rest))
    ensures rest != "" ==> Collapsed(rest) != "" && Collapsed(rest)[0] == rest[0]
  {
    var s := "-" + rest;
    assert s[1..] == rest;
    if rest != "" {
      CollapseHyphen(rest[1..]);
      if rest[0] == '-' {
        assert rest == "-" + rest[1..];
        StripLeftStops(Collapsed(rest[1..]));
        assert Collapsed(rest)[1..] == StripLeft(Collapsed(rest[1..]));
      } else {
        assert Collapsed(s) == ['-'] + Collapsed(rest);
      }
    }
  }

  lemma {:induction false} StripLeftStops(s: string)
    ensures StripLeft(s) == "" || StripLeft(s)[0] != '-'
    ensures StripLeft(StripLeft(s)) == StripLeft(s)
  {
    if s != "" && s[0] == '-' {
      StripLeftStops(s[1..]);
    }
  }

  lemma {:induction false} StripRightOf(a: string, b: string)
    ensures StripRight(b) != "" ==> StripRight(a + b) == a + StripRight(b)
    ensures StripRight(b) == "" ==> StripRight(a + b) == StripRight(a)
  {
    if b == "" {
      assert a + b == a;
    } else {
      var n := |b| - 1;
      assert (a + b)[..|a + b| - 1] == a + b[..n];
      assert (a + b)[|a + b| - 1] == b[n];
      if b[n] == '-' {
        StripRightOf(a, b[..n]);
      }
    }
  }

  lemma StripRightAlnum(a: string)
    requires AllAlnum(a)
    ensures StripRight(a) == a
  {
  }

  function Trimmed(s: string): string { StripRight(StripLeft(Collapsed(s))) }

  lemma {:induction false} CollapseNothing(a: string)
    requires AllAlnum(a)
    ensures Collapsed(a) == a && Trimmed(a) == a
  {
    CollapseWord(a, "");
    assert a + "" == a;
    StripRightAlnum(a);
  }

  lemma TrimSplit(a: string, rest: string)
    requires AllAlnum(a)
    ensures Trimmed(a + "-" + rest) ==
            if a == "" then Trimmed(rest) else if Trimmed(rest) == "" then a else a + "-" + Trimmed(rest)
  {
    var tail := StripLeft(Collapsed(rest));
    CollapseWord(a, "-" + rest);
    CollapseHyphen(rest);
    AppendIsAssociative(a, "-", rest);
    AppendIsAssociative(a, "-", tail);
    if a == "" {
      assert a + "-" + tail == "-" + tail;
      StripLeftStops(Collapsed(rest));
      StripLeftHyphen(tail);
    } else {
      StripAfterWord(a, tail);
    }
  }

  lemma StripLeftHyphen(tail: string)
    ensures StripLeft("-" + tail) == StripLeft(tail)
  {
    assert ("-" + tail)[1..] == tail;
  }

  lemma StripAfterWord(a: string, tail: string)
    requires a != "" && AllAlnum(a)
    ensures StripRight(StripLeft(a + "-" + tail)) ==
            if StripRight(tail) == "" then a else a + "-" + StripRight(tail)
  {
    StripRightOf(a + "-", tail);
    StripRightOf(a, "-");
    StripRightAlnum(a);
    assert (a + "-" + tail)[0] == a[0];
  }

  lemma {:induction false} TrimJoinsFields(s: string)
    requires IsPlain(s)
    ensures Trimmed(s) == Join(Fields(s, ""))
    decreases |s|
  {
    if AllAlnum(s) {
      CollapseNothing(s);
      FieldsOfWord(s, "");
      assert "" + s == s;
    } else {
      var i := FirstHyphen(s);
      var a, rest := s[..i], s[i + 1..];
      assert s == a + "-" + rest;
      TrimJoinsFields(rest);
      TrimSplit(a, rest);
      FieldsSplit(a, rest, "");
      assert "" + a == a;
      FieldsAreWords(rest, "");
      JoinCons(a, Fields(rest, ""));
    }
  }

  lemma {:induction false} FirstHyphen(s: string) returns (i: nat)
    requires IsPlain(s) && !AllAlnum(s)
    ensures i < |s| && s[i] == '-' && AllAlnum(s[..i])
  {
    i := 0;
    while IsAlnum(s[i])
      invariant i < |s| && AllAlnum(s[..i])
      decreases |s| - i
    {
      assert i + 1 == |s| ==> AllAlnum(s);
      i := i + 1;
    }
  }

  lemma JoinCons(a: string, parts: seq<string>)
    requires AreWords(parts)
    ensures Join(parts) == "" <==> parts == []
    ensures Join([a] + parts) == if parts == [] then a else a + "-" + Join(parts)
    ensures [] + parts == parts
  {
    assert ([a] + parts)[1..] == parts;
  }

  /** For every string: the words between its separators, joined by single hyphens. */
  lemma NormalizeJoinsFields(lower: string -> string, name: string)
    ensures Normalize(lower, name) == Join(Fields(lower(name), ""))
  {
    var s := Cleaned(lower(name));
    CleaningKeepsFields(lower(name), "");
    TrimJoinsFields(s);
  }

  /** The result is empty or a name of the grammar, whatever lower-casing does. */
  lemma NormalizedIsEmptyOrInGrammar(lower: string -> string, name: string)
    ensures Normalize(lower, name) == "" || InGrammar(Normalize(lower, name))
  {
    NormalizeJoinsFields(lower, name);
    FieldsAreWords(lower(name), "");
  }

  // ----- fixed points -----

  ghost predicate KeepsPlain(lower: string -> string) {
    forall s :: IsPlain(s) ==> lower(s) == s
  }

  lemma {:induction false} FieldsOfJoin(parts: seq<string>)
    requires AreWords(parts)
    ensures Fields(Join(parts), "") == parts && IsPlain(Join(parts))
  {
    if |parts| == 1 {
      FieldsOfWord(parts[0], "");
      assert "" + parts[0] == parts[0];
    } else if |parts| > 1 {
      FieldsOfJoin(parts[1..]);
      FieldsSplit(parts[0], Join(parts[1..]), "");
      assert "" + parts[0] == parts[0];
    }
  }

  /** Exactly the empty string and the names of the grammar are left as they are. */
  lemma FixedPointsAreTheGrammar(lower: string -> string, name: string)
    requires KeepsPlain(lower)
    ensures Normalize(lower, name) == name <==> name == "" || InGrammar(name)
  {
    NormalizedIsEmptyOrInGrammar(lower, name);
    NormalizeJoinsFields(lower, name);
    if name == "" {
      assert lower("") == "";
    } else if InGrammar(name) {
      var parts: seq<string> :| parts != [] && AreWords(parts) && name == Join(parts);
      FieldsOfJoin(parts);
    }
  }

  lemma NormalizeIsIdempotent(lower: string -> string, name: string)
    requires KeepsPlain(lower)
    ensures Normalize(lower, Normalize(lower, name)) == Normalize(lower, name)
  {
    NormalizedIsEmptyOrInGrammar(lower, name);
    FixedPointsAreTheGrammar(lower, Normalize(lower, name));
  }

  // ----- validation -----

  /** The pattern's automaton: at the start of a word, and inside one. */
  predicate MatchesWord(s: string) {
    s != "" && IsAlnum(s[0]) && MatchesRest(s[1..])
  }

  predicate MatchesRest(s: string) {
    || s == ""
    || (IsAlnum(s[0]) && MatchesRest(s[1..]))
    || (s[0] == '-' && |s| > 1 && IsAlnum(s[1]) && MatchesRest(s[2..]))
  }

  lemma {:induction false} RestAfterWord(a: string, s: string)
    requires AllAlnum(a)
    ensures MatchesRest(a + s) <==> MatchesRest(s)
  {
    if a == "" {
      assert a + s == s;
    } else {
      RestAfterWord(a[1..], s);
      assert (a + s)[1..] == a[1..] + s;
    }
  }

  lemma {:induction false} GrammarMatches(parts: seq<string>)
    requires parts != [] && AreWords(parts)
    ensures MatchesWord(Join(parts))
  {
    var a := parts[0];
    if |parts| == 1 {
      RestAfterWord(a[1..], "");
      assert a[1..] + "" == a[1..];
    } else {
      GrammarMatches(parts[1..]);
      var tail := "-" + Join(parts[1..]);
      assert tail[2..] == Join(parts[1..])[1..];
      RestAfterWord(a[1..], tail);
      assert Join(parts)[1..] == a[1..] + tail;
    }
  }

  lemma {:induction false} MatchIsInGrammar(word: string, s: string) returns (parts: seq<string>)
    requires word != "" && AllAlnum(word) && MatchesRest(s)
    ensures parts != [] && AreWords(parts) && word + s == Join(parts)
    decreases |s|
  {
    if s == "" {
      parts := [word];
      assert word + s == word;
    } else if IsAlnum(s[0]) {
      parts := MatchIsInGrammar(word + [s[0]], s[1..]);
      AppendIsAssociative(word, [s[0]], s[1..]);
      assert [s[0]] + s[1..] == s;
    } else {
      var rest := MatchIsInGrammar([s[1]], s[2..]);
      parts := [word] + rest;
      JoinCons(word, rest);
      assert s == "-" + ([s[1]] + s[2..]);
      AppendIsAssociative(word, "-", [s[1]] + s[2..]);
    }
  }

  lemma PatternIsTheGrammar(s: string)
    ensures MatchesWord(s) <==> InGrammar(s)
  {
    if MatchesWord(s) {
      var parts := MatchIsInGrammar([s[0]], s[1..]);
      assert [s[0]] + s[1..] == s;
    }
    if InGrammar(s) {
      var parts: seq<string> :| parts != [] && AreWords(parts) && s == Join(parts);
      GrammarMatches(parts);
    }
  }

  /** `match` with a closing `$`, which also stops before one final newline. */
  predicate PatternMatches(s: string) {
    MatchesWord(s) || (s != "" && s[|s| - 1] == '\n' && MatchesWord(s[..|s| - 1]))
  }

  datatype NameError = Empty | TooLong(length: nat) | BadPattern

  method ValidateSkillName(name: string) returns (errors: seq<NameError>)
    ensures name == "" ==> errors == [Empty]
    ensures name != "" ==>
              && (TooLong(|name|) in errors <==> |name| > 64)
              && (BadPattern in errors <==> !PatternMatches(name))
              && forall e :: e in errors ==> e == TooLong(|name|) || e == BadPattern
  {
    errors := [];
    if name == "" {
      return [Empty];
    }
    if |name| > 64 {
      errors := errors + [TooLong(|name|)];
    }
    if !PatternMatches(name) {
      errors := errors + [BadPattern];
    }
  }

  /** Validating a normalised name can only find it empty or too long. */
  method ValidateNormalized(lower: string -> string, name: string) returns (errors: seq<NameError>)
    ensures BadPattern !in errors
    ensures errors == [] <==> 1 <= |Normalize(lower, name)| <= 64
  {
    var normalized := Normalize(lower, name);
    NormalizedIsEmptyOrInGrammar(lower, name);
    PatternIsTheGrammar(normalized);
    errors := ValidateSkillName(normalized);
    assert errors != [] ==> errors[0] in errors;
  }

  /**
   The validator promises names of the grammar. It keeps that promise exactly for names
   that do not end in a newline: it also lets through every name with one added.
   */
  lemma AcceptsTheGrammarExactlyWhen(name: string)
    ensures (name == "" || name[|name| - 1] != '\n') ==> (PatternMatches(name) <==> InGrammar(name))
    ensures PatternMatches(name) && name[|name| - 1] == '\n' <==>
            name != "" && name[|name| - 1] == '\n' && InGrammar(name[..|name| - 1])
    ensures name != "" && name[|name| - 1] == '\n' ==> !InGrammar(name)
  {
    PatternIsTheGrammar(name);
    if name != "" {
      PatternIsTheGrammar(name[..|name| - 1]);
      if InGrammar(name) {
        var parts: seq<string> :| parts != [] && AreWords(parts) && name == Join(parts);
        FieldsOfJoin(parts);
      }
    }
  }
}
