/** PII redaction of JSON values, and the key tokeniser behind it. */
module Redactor {
  import opened Options
  import opened JsonPatch
  import opened Strings

  // ---- ASCII ----

  predicate IsUpper(c: char) { 'A' <= c <= 'Z' }

  predicate IsLower(c: char) { 'a' <= c <= 'z' }

  predicate IsAlnum(c: char) { IsUpper(c) || IsLower(c) || '0' <= c <= '9' }

  function Lower(c: char): char {
    if IsUpper(c) then (c as int - 'A' as int + 'a' as int) as char else c
  }

  function LowerAll(s: string): string {
    seq(|s|, i requires 0 <= i < |s| => Lower(s[i]))
  }

  // ---- the tokeniser ----

  /** Whether an upper-case letter at `i` starts a new word. */
  predicate StartsWord(key: string, i: nat, previousWasLowercase: bool)
    requires i < |key|
  {
    IsUpper(key[i]) && (previousWasLowercase || (i + 1 < |key| && IsLower(key[i + 1])))
  }

  function Flushed(current: string): seq<string> {
    if current == "" then [] else [current]
  }

  /** The tokens still to come at position `i` with `current` collected so far. */
  function TokensFrom(key: string, i: nat, current: string, previousWasLowercase: bool): seq<string>
    requires i <= |key|
    decreases |key| - i
  {
    if i == |key| then Flushed(current)
    else if !IsAlnum(key[i]) then Flushed(current) + TokensFrom(key, i + 1, "", false)
    else if current != "" && StartsWord(key, i, previousWasLowercase)
    then Flushed(current) + TokensFrom(key, i + 1, [Lower(key[i])], IsLower(key[i]))
    else TokensFrom(key, i + 1, current + [Lower(key[i])], IsLower(key[i]))
  }

  function KeyTokens(key: string): seq<string> {
    TokensFrom(key, 0, "", false)
  }

  method SplitKey(key: string) returns (tokens: seq<string>)
    ensures tokens == KeyTokens(key)
  {
    tokens := [];
    var current := "";
    var previousWasLowercase := false;
    for i := 0 to |key|
      invariant tokens + TokensFrom(key, i, current, previousWasLowercase) == KeyTokens(key)
    {
      if !IsAlnum(key[i]) {
        if current != "" {
          tokens := tokens + [current];
          current := "";
        }
        previousWasLowercase := false;
      } else {
        if current != "" && StartsWord(key, i, previousWasLowercase) {
          tokens := tokens + [current];
          current := "";
        }
        assert current == "" ==> current + [Lower(key[i])] == [Lower(key[i])];
        current := current + [Lower(key[i])];
        previousWasLowercase := IsLower(key[i]);
      }
    }
    if current != "" {
      tokens := tokens + [current];
    }
  }

  function Flatten(tokens: seq<string>): string
    decreases |tokens|
  {
    if tokens == [] then "" else tokens[0] + Flatten(tokens[1..])
  }

  /** The letters and digits of the key from `i` on, lower-cased. */
  function LowerAlnum(key: string, i: nat): string
    requires i <= |key|
    decreases |key| - i
  {
    if i == |key| then ""
    else if IsAlnum(key[i]) then [Lower(key[i])] + LowerAlnum(key, i + 1)
    else LowerAlnum(key, i + 1)
  }

  lemma FlattenFlushed(current: string, rest: seq<string>)
    requires "" !in rest
    ensures Flatten(Flushed(current) + rest) == current + Flatten(rest) && "" !in Flushed(current) + rest
  {
    if current == "" {
      assert Flushed(current) + rest == rest;
    } else {
      assert (Flushed(current) + rest)[1..] == rest;
    }
  }

  lemma {:induction false} TokensAreTheKey(key: string, i: nat, current: string, previousWasLowercase: bool)
    requires i <= |key|
    ensures Flatten(TokensFrom(key, i, current, previousWasLowercase)) == current + LowerAlnum(key, i)
    ensures "" !in TokensFrom(key, i, current, previousWasLowercase)
    decreases |key| - i
  {
    if i == |key| {
      FlattenFlushed(current, []);
      assert Flushed(current) + [] == Flushed(current);
    } else if !IsAlnum(key[i]) {
      TokensAreTheKey(key, i + 1, "", false);
      FlattenFlushed(current, TokensFrom(key, i + 1, "", false));
    } else {
      var c := [Lower(key[i])];
      if current != "" && StartsWord(key, i, previousWasLowercase) {
        TokensAreTheKey(key, i + 1, c, IsLower(key[i]));
        FlattenFlushed(current, TokensFrom(key, i + 1, c, IsLower(key[i])));
      } else {
        TokensAreTheKey(key, i + 1, current + c, IsLower(key[i]));
        assert current + c + LowerAlnum(key, i + 1) == current + (c + LowerAlnum(key, i + 1));
      }
    }
  }

  /** Tokens are non-empty and spell exactly the key's lower-cased letters and digits, in order. */
  lemma TokensSpellTheKey(key: string)
    ensures Flatten(KeyTokens(key)) == LowerAlnum(key, 0)
    ensures "" !in KeyTokens(key)
  {
    TokensAreTheKey(key, 0, "", false);
  }

  predicate OneWord(key: string) {
    forall i :: 0 <= i < |key| ==> IsAlnum(key[i]) && !IsUpper(key[i])
  }

  lemma {:induction false} OneWordFrom(key: string, i: nat, previousWasLowercase: bool)
    requires OneWord(key) && i <= |key| && key != ""
    ensures TokensFrom(key, i, key[..i], previousWasLowercase) == [key]
    decreases |key| - i
  {
    if i == |key| {
      assert key[..i] == key;
    } else {
      assert key[..i] + [Lower(key[i])] == key[..i + 1];
      OneWordFrom(key, i + 1, IsLower(key[i]));
    }
  }

  // ---- key classification ----

  predicate StructuredWord(token: string) {
    token in ["ssn", "phone", "telephone", "tel", "dob", "address", "postal", "zip"]
  }

  predicate ContainsStructuredPiiKey(key: string) {
    var tokens := KeyTokens(key);
    || (exists i :: 0 <= i < |tokens| && StructuredWord(tokens[i]))
    || (exists i :: 0 <= i <= |tokens| && ["social", "security"] <= tokens[i..])
    || (exists i :: 0 <= i <= |tokens| && ["date", "of", "birth"] <= tokens[i..])
  }

  predicate IsSensitiveKey(key: string) {
    var lower := LowerAll(key);
    || lower in ["password", "passwd", "email", "token", "secret", "authorization", "auth", "card",
                 "credit_card", "cc", "cvv", "cvc"]
    || Contains(lower, "password") || Contains(lower, "email") || Contains(lower, "token")
    || Contains(lower, "secret") || Contains(lower, "card")
    || ContainsStructuredPiiKey(key)
  }

  predicate IsToolValueKey(lower: string) {
    lower == "value" || lower == "text" || (|lower| >= 5 && lower[|lower| - 5..] == "_text")
  }

  /** Short words match whole words only: a one-word key is structured PII just when it is one of them. */
  lemma WholeWordsOnly(key: string)
    requires OneWord(key) && key != ""
    ensures ContainsStructuredPiiKey(key) <==> StructuredWord(key)
  {
    OneWordFrom(key, 0, false);
    assert key[..0] == "";
    assert KeyTokens(key) == [key];
    assert KeyTokens(key)[0] == key;
  }

  // ---- JSON redaction ----

  const MASK: Json := Str("***")

  predicate Masked(key: string, toolArgs: bool) {
    IsSensitiveKey(key) || (toolArgs && IsToolValueKey(LowerAll(key)))
  }

  function Redact(text: string -> string, value: Json, keyHint: Option<string>, toolArgs: bool): Json
    decreases value
  {
    match value
    case Obj(members) =>
      Obj(map k | k in members ::
            if Masked(k, toolArgs) then MASK else Redact(text, members[k], Some(k), toolArgs))
    case Arr(items) => Arr(seq(|items|, i requires 0 <= i < |items| => Redact(text, items[i], keyHint, toolArgs)))
    case Str(s) => if keyHint.Some? && IsSensitiveKey(keyHint.value) then MASK else Str(text(s))
    case _ => value
  }

  /** What redaction means, without the key hint the recursion carries. */
  ghost predicate RedactionOf(text: string -> string, value: Json, r: Json, toolArgs: bool)
    decreases value
  {
    match value
    case Obj(members) =>
      && r.Obj? && r.members.Keys == members.Keys
      && forall k <- members ::
           if Masked(k, toolArgs) then r.members[k] == MASK
           else RedactionOf(text, members[k], r.members[k], toolArgs)
    case Arr(items) =>
      && r.Arr? && |r.items| == |items|
      && forall i :: 0 <= i < |items| ==> RedactionOf(text, items[i], r.items[i], toolArgs)
    case Str(s) => r == Str(text(s))
    case _ => r == value
  }

  /**
    Redaction keeps every key set and array length outside masked values, leaves only the mask under
    a sensitive key at any depth, and changes nothing else but text: the key hint never matters,
    because a value under a sensitive key was masked before it could be reached.
   */
  lemma {:induction false} RedactMeansRedaction(text: string -> string, value: Json, keyHint: Option<string>,
                                              toolArgs: bool)
    requires keyHint.Some? ==> !IsSensitiveKey(keyHint.value)
    ensures RedactionOf(text, value, Redact(text, value, keyHint, toolArgs), toolArgs)
    decreases value
  {
    match value
    case Obj(members) =>
      forall k | k in members && !Masked(k, toolArgs)
        ensures RedactionOf(text, members[k], Redact(text, members[k], Some(k), toolArgs), toolArgs)
      {
        RedactMeansRedaction(text, members[k], Some(k), toolArgs);
      }
    case Arr(items) =>
      forall i | 0 <= i < |items|
        ensures RedactionOf(text, items[i], Redact(text, items[i], keyHint, toolArgs), toolArgs)
      {
        RedactMeansRedaction(text, items[i], keyHint, toolArgs);
      }
    case _ =>
  }

  /** The meaning determines the result. */
  lemma {:induction false} RedactionIsUnique(text: string -> string, value: Json, a: Json, b: Json, toolArgs: bool)
    requires RedactionOf(text, value, a, toolArgs) && RedactionOf(text, value, b, toolArgs)
    ensures a == b
    decreases value
  {
    match value
    case Obj(members) =>
      forall k | k in members
        ensures a.members[k] == b.members[k]
      {
        if !Masked(k, toolArgs) {
          RedactionIsUnique(text, members[k], a.members[k], b.members[k], toolArgs);
        }
      }
      assert a.members == b.members;
    case Arr(items) =>
      forall i | 0 <= i < |items|
        ensures a.items[i] == b.items[i]
      {
        RedactionIsUnique(text, items[i], a.items[i], b.items[i], toolArgs);
      }
      assert a.items == b.items;
    case _ =>
  }

  lemma {:induction false} RedactionOfRedaction(text: string -> string, value: Json, r: Json, toolArgs: bool)
    requires forall s: string :: text(text(s)) == text(s)
    requires RedactionOf(text, value, r, toolArgs)
    ensures RedactionOf(text, r, r, toolArgs)
    decreases value
  {
    match value
    case Obj(members) =>
      forall k | k in members && !Masked(k, toolArgs)
        ensures RedactionOf(text, r.members[k], r.members[k], toolArgs)
      {
        RedactionOfRedaction(text, members[k], r.members[k], toolArgs);
      }
    case Arr(items) =>
      forall i | 0 <= i < |items|
        ensures RedactionOf(text, r.items[i], r.items[i], toolArgs)
      {
        RedactionOfRedaction(text, items[i], r.items[i], toolArgs);
      }
    case _ =>
  }

  /** Redacting twice is redacting once, given a text redactor with that property. */
  lemma RedactIsIdempotent(text: string -> string, value: Json, toolArgs: bool)
    requires forall s: string :: text(text(s)) == text(s)
    ensures Redact(text, Redact(text, value, None, toolArgs), None, toolArgs) == Redact(text, value, None, toolArgs)
  {
    var r := Redact(text, value, None, toolArgs);
    RedactMeansRedaction(text, value, None, toolArgs);
    RedactionOfRedaction(text, value, r, toolArgs);
    RedactMeansRedaction(text, r, None, toolArgs);
    RedactionIsUnique(text, r, r, Redact(text, r, None, toolArgs), toolArgs);
  }
}
